# notification-banner, modelled in Dafny

This project models the notification pipeline of notification-banner, a small
Windows tray program. The program shows toast-like banners for requests that
arrive on the command line or over a tiny HTTP endpoint. The model covers:

- **`Queue`** (`queue.dfy`): the bounded admission queue `NotificationQueue`.
  It is a FIFO of at most 100 requests plus a count of requests dropped while
  it was full. A successful dequeue that empties the queue while drops are
  pending appends one "N notifications were skipped." request and resets the
  count.
- **`Manager`** (`manager.dfy`): the multi-slot scheduler `NotificationManager`.
  It keeps a list of active banners and removes the disposed ones. While fewer
  than `MaxNotificationsOnScreen` remain, it admits one request per poll,
  dropping unimportant requests while Do-Not-Disturb is on. Banners stack at
  offsets `k * (h + 10)` and are reflowed without gaps when one closes. The
  module also models the Disposed handler each banner carries and the
  scheduler's `Dispose`.
- **`AppContext`** (`appcontext.dfy`): the single-banner scheduler
  `MyApplicationContext`. This is the poll loop the program actually runs. It
  disposes the banner on screen, dequeues the next request (with the same
  Do-Not-Disturb rule) and shows it. The banner's Disposed handler may end the
  process or poll again. The constructor starts the web server only for a
  positive listen port.
- **`Positioning`** (`position.dfy`): `ParsePositionEnum` (a number naming a
  position, else a position name ignoring case, else top-left) and the
  integer geometry of `GetScreenPosition`. C# division truncates toward zero,
  and the model writes that out.
- **`WebService`** (`webserver.dfy`): the string-level half of `WebServer`.
  - The request line (`method SP request-target SP HTTP-version`, section 3
    of RFC 9112) and the header loop.
  - The case-insensitive query dictionary (the query component of section 3.4
    of RFC 3986) and its mapping onto a request with the endpoint's defaults.
  - The 200/400/405 dispatch with its single enqueue, and the reason phrases
    (section 15 of RFC 9110).
  - The port check of `Start` and the de-duplicated list of bind addresses.
- **`Configuration`** (`config.dfy`): the request record `Config` with its
  field defaults, the argument-shape branch of `Config.Load`, and
  `ParseCommandLine`, which takes a flag's value only when the next argument
  is not itself switch-like.
- **`Banner`** (`banner.dfy`): the state rules of `BannerForm`.
  - The priority guard of `SetData`.
  - The hide timer, whose interval is fixed when it is first created.
  - The size argument.
  - The background decoded from `#AARRGGBB` / `#RRGGBB` (opacity is a tag,
    not a float).
  - The once-only `TriggerHidingDisposal`.
  - The offset and hide counters of `UpdateLocationOpacity`.
- **`Strings`** (`strings.dfy`): the .NET string members the code relies on.
  These are `IsNullOrWhiteSpace`, `IndexOf`, `Split`, `TrimStart`, `Trim`,
  `ToLowerInvariant`, `int.TryParse` and `Convert.ToByte(s, 16)`.

Code that changes state in place becomes classes with the source's fields:
`NotificationQueue`, `NotificationManager`, `ApplicationContext`, `WebServer`
and `BannerForm`. Their methods keep the source's loops and branches. Each is
proved against a pure step function (`EnqueueStep`, `DequeueStep`,
`PollStep`, `HandleDisposed`, `Poll`, `Closed`, `Dequeue`, `SetDataStep`,
`HideStep`, `UpdateStep`, `QueryMap`, `UrlConfig`, `Exchange`,
`BindAddresses`). The properties the program promises are lemmas about those
functions.

The operating system enters only as parameters:
- the Do-Not-Disturb state (`dnd`);
- the screen bounds (`Rect`);
- the network interfaces and whether a listener binds (`binds`);
- `Uri.UnescapeDataString` (`unescape`);
- the default-image lookup by title (`imageFor`);
- the height a new banner takes.

Sockets hand the request over as the lines a reader would return. Locks are
not modelled: every operation is one atomic step.

`ParseQueryString` assigns `result[key] = value` for every piece
(`Model/WebServer.cs:267,272`), so the last occurrence of a key wins
(`LastOccurrenceWins`).

## Model

| member | source | states |
|---|---|---|
| Queue.EnqueueStep | Model/NotificationQueue.cs:12-22 | below capacity the request is appended at the tail and the skipped count is unchanged; at capacity the entries are unchanged and the count grows by exactly one; the queue invariant (at most 100 entries, pending count implies an entry) is preserved |
| Queue.DequeueStep | Model/NotificationQueue.cs:24-42 | succeeds exactly when there are entries; the returned value is the removed head (never the summary appended in the same call); failure changes nothing; success lowers the pending count by one; the invariant is preserved |
| Queue.InjectionNestingHarmless | Model/NotificationQueue.cs:27-39 | under the queue invariant, injecting the summary only after a successful dequeue (the nesting as written) equals injecting after any dequeue |
| Queue.InjectionNestingMatters | Model/NotificationQueue.cs:27-29 | outside the invariant (no entries, a pending count) the two readings differ, so the invariant is what makes the nesting harmless |
| Queue.SummaryIsShowable | Model/NotificationQueue.cs:31-36 | the summary request has a non-blank message, a Time that parses to 5 seconds, and is neither important nor an exit request |
| Queue.EnqueueAllAppends | Model/NotificationQueue.cs:19 | enqueuing requests that fit appends exactly them, in order |
| Queue.EnqueueAllWhenFull | Model/NotificationQueue.cs:14-18 | on a full queue every further request only adds one to the skipped count |
| Queue.DrainInOrder | Model/NotificationQueue.cs:24-42 | with nothing skipped, dequeuing as many times as there are entries returns them in order and leaves the queue empty |
| Queue.Fifo | Model/NotificationQueue.cs:12-42 | for up to 100 requests, dequeue order is enqueue order and the queue ends empty |
| Queue.EnqueueIntoEmpty | Model/NotificationQueue.cs:12-22 | enqueuing up to 100 requests into an empty queue holds exactly them with nothing skipped |
| Queue.DrainWithSummary | Model/NotificationQueue.cs:26-39 | a queue with k > 0 drops yields its entries, then exactly one summary for k, then is empty with the count reset |
| Queue.Overflow | Model/NotificationQueue.cs:12-42 | after 100 + k enqueues into an empty queue it holds the first 100 and counts k; 101 dequeues give the first 100 in order and then the summary for k, leaving the queue empty |
| Queue.NotificationQueue.constructor | Model/NotificationQueue.cs:7-8 | a new queue is empty with a zero count |
| Queue.NotificationQueue.Enqueue | Model/NotificationQueue.cs:12-22 | the new state is `EnqueueStep` of the old one: append below capacity, count the drop at capacity, nothing else changes |
| Queue.NotificationQueue.TryDequeue | Model/NotificationQueue.cs:24-42 | the flag, out value and new state are `DequeueStep` of the old state; an empty queue returns false and changes nothing; otherwise the old head is returned |
| Queue.NotificationQueue.IsEmpty | Model/NotificationQueue.cs:44 | true exactly when there are no entries, which under the invariant means no dequeue would succeed |
| Configuration.DefaultConfigIsBlank | Config.cs:10-17 | a fresh request has a blank message, title "Notification", time "10", position "topleft", no exit and an empty colour |
| Configuration.ApplyFlag | Config.cs:81-90 | an unrecognised key changes nothing; "exit" sets Exit whatever the value and nothing else sets it; "position" stores the value lower-cased; "message" stores the value, null included |
| Configuration.ExitIffExitFlag | Config.cs:72-92 | contract of `Configuration.ParseFrom`: after parsing, Exit is set exactly when it was set before or some argument is an "exit" flag, because a flag is never consumed as another flag's value |
| Configuration.UnrecognisedChangeNothing | Config.cs:72-92 | contract of `Configuration.ParseFrom`: arguments with no recognised flag leave the request unchanged; bare arguments are ignored |
| Configuration.FlagTakesPlainValue | Config.cs:76-80 | contract of `Configuration.ParseFrom`: at any index, a flag followed by an argument that is not switch-like takes it as its value and parsing resumes after that value |
| Configuration.FlagBeforeSwitchGetsNull | Config.cs:76-80 | contract of `Configuration.ParseFrom`: at any index, a flag followed by a switch-like argument, or by nothing, is applied with a null value and the next argument is parsed on its own |
| Configuration.ParseCommandLine | Config.cs:71-93 | contract of `Configuration.ParseFrom`: the index loop, which bumps `i` past a consumed value, computes `ParseFrom` of the whole argument list |
| Configuration.LoadArguments | Config.cs:37-45 | one bare argument sets only Message; two bare arguments set Message then Title; any other shape is `ParseCommandLine` |
| Strings.IndexOf | Model/WebServer.cs:216 | -1 exactly when the character is absent; otherwise the index of its first occurrence |
| Strings.Split | Model/WebServer.cs:131 | at least one piece, and no piece contains the separator |
| Strings.SplitCount | Model/WebServer.cs:131 | `Split` gives exactly one more piece than there are separators in the string |
| Strings.JoinSplit | Model/WebServer.cs:131 | joining the pieces of `Split` with the separator gives back the string |
| Strings.SplitRemoveEmpty | Model/WebServer.cs:259 | every piece is non-empty and free of the separator, and the pieces are exactly the non-empty pieces of `Split` |
| Strings.SplitFirst | Model/WebServer.cs:262 | one piece (the whole string) exactly when there is no separator; otherwise two pieces, the first free of the separator, whose concatenation around it is the string |
| Strings.TrimStartCharsShape | Config.cs:75 | `TrimStart(chars)` drops exactly the leading characters in the set: the result is a suffix, it does not start with one of them, and everything dropped is one of them |
| Strings.TrimStartWhiteShape | Model/WebServer.cs:146-147 | trimming the front gives a suffix that does not start with white space, and only white space is dropped |
| Strings.TrimEndWhiteShape | Model/WebServer.cs:146-147 | trimming the back gives a prefix that does not end with white space, and only white space is dropped |
| Strings.TrimEnds | Model/WebServer.cs:146-147 | after `Trim` neither end is white space |
| Strings.Lower | Config.cs:75 | same length; no upper-case ASCII letter remains; each upper-case ASCII letter becomes its lower-case letter and every other character is kept |
| Strings.LowerEqualIgnoringCase | Model/WebServer.cs:227-233 | two strings lower-case to the same text exactly when they have the same length and agree at every position up to ASCII case, so comparing lower-cased text is a case-insensitive comparison |
| Strings.LowerIdempotent | Config.cs:86 | lower-casing an already lower-cased value changes nothing |
| Strings.ParseInt | Framework/Banner/BannerForm.cs:143 | `int.TryParse` succeeds only with a value inside the 32-bit range; with `ParseIntForm` and `ParseIntOnlyNumbers`, which state its value in both directions, it succeeds exactly on white space, an optional sign, decimal digits and white space whose signed value fits in 32 bits, and then gives that value |
| Strings.ParseIntForm | Framework/Banner/BannerForm.cs:143 | optional leading and trailing white space from the space and U+0009 to U+000D, an optional sign and at least one decimal digit parse to the signed value of the digits when it fits in 32 bits, and fail when it does not |
| Strings.ParseIntOnlyNumbers | Framework/Banner/BannerForm.cs:143 | the converse: any text that parses is white space, an optional sign, decimal digits and white space, and the result is the signed value of those digits |
| Strings.ParseIntLeadingJunk | Framework/Banner/BannerForm.cs:143 | text starting with a character that is not one of those white-space characters, a sign or a digit (U+00A0 among them) does not parse |
| Strings.ParseIntOfNatToString | Model/MyApplicationContext.cs:84 | the decimal rendering of any count up to 2^31 - 1 parses back to it |
| Strings.DigitsValueOfNatToString | Model/NotificationQueue.cs:31 | the digits the skipped count is rendered with read back as that count |
| Strings.HexByte | Framework/Banner/BannerForm.cs:172-181 | two characters convert to a byte exactly when the second is a hex digit and the first is a hex digit or a '+' sign (otherwise `Convert.ToByte` throws); the byte is below 256; upper and lower case convert alike (`HexByteIgnoresCase`) |
| Strings.HexDigitIgnoresCase | Framework/Banner/BannerForm.cs:172-181 | a character is a hex digit exactly when its lower-case form is one, and both have the same value |
| Strings.HexByteIgnoresCase | Framework/Banner/BannerForm.cs:172-181 | a pair and its lower-case form convert to the same byte, or both fail to convert |
| Strings.SignedHexDigit | Framework/Banner/BannerForm.cs:172-181 | a '+' followed by one hex digit converts to that digit's value |
| Strings.HexByteOfHex2 | Framework/Banner/BannerForm.cs:172-175 | a byte written as two hex digits converts back to itself |
| Banner.NewBannerData | Framework/Banner/BannerData.cs:6-9 | new banner data has priority -1 and carries the request |
| Banner.DecodeColor | Framework/Banner/BannerForm.cs:164-196 | the decoded background always has byte RGB components, an alpha below 256 when it has one, and never the form's initial opacity 1.0; its value is stated by the lemmas below: the round trips in either case, case-insensitivity, the null and blank fallback, and the fallback for non-hex characters at six and at eight characters |
| Banner.SixDigitRoundTrip | Framework/Banner/BannerForm.cs:178-183 | "#RRGGBB" decodes to that colour at opacity 0.9 |
| Banner.EightDigitRoundTrip | Framework/Banner/BannerForm.cs:171-177 | "#AARRGGBB" decodes to the RGB colour with opacity alpha / 255 |
| Banner.DecodeColorIgnoresCase | Framework/Banner/BannerForm.cs:164-196 | a colour and its lower-case form decode to the same background |
| Banner.SixDigitLowerRoundTrip | Framework/Banner/BannerForm.cs:178-183 | "#rrggbb" in lower case decodes to that colour at opacity 0.9 |
| Banner.EightDigitLowerRoundTrip | Framework/Banner/BannerForm.cs:171-177 | "#aarrggbb" in lower case decodes to the RGB colour with opacity alpha / 255 |
| Banner.LowerCaseOrange | Framework/Banner/BannerForm.cs:178-183 | "#ff8800" decodes to RGB (255, 136, 0) at opacity 0.9 |
| Banner.BlankColorFallsBack | Framework/Banner/BannerForm.cs:165-196 | a null, empty or white-space colour, and a missing one, give charcoal at 0.9 |
| Banner.OtherLengthFallsBack | Framework/Banner/BannerForm.cs:184-186 | any length other than 6 or 8 after stripping '#' gives charcoal (45,45,45) at 0.9 |
| Banner.NonHexFallsBack | Framework/Banner/BannerForm.cs:179-192 | a six-character colour holding a character that is not a hex digit, other than a '+' at the start of a pair, gives charcoal at 0.9 |
| Banner.EightNonHexFallsBack | Framework/Banner/BannerForm.cs:171-192 | an eight-character colour holding a character that is not a hex digit, other than a '+' at the start of a pair, gives charcoal at 0.9 |
| Banner.PairNotHex | Framework/Banner/BannerForm.cs:179-181 | a two-character pair holding a non-hex character, other than a leading '+', does not convert |
| Banner.PlusLeadsPair | Framework/Banner/BannerForm.cs:178-183 | "#+F0000" decodes to RGB (15, 0, 0) at opacity 0.9, because `Convert.ToByte("+F", 16)` is 15 |
| Banner.TtlSeconds | Framework/Banner/BannerForm.cs:143 | the time to live is a 32-bit value; `TtlOfNumber` and `TtlOfNonNumber` give it on every text: the value `int.TryParse` reads, else 10 |
| Banner.TtlOfDecimal | Framework/Banner/BannerForm.cs:143 | a decimal Time is that many seconds; a null Time is 10 |
| Banner.TtlOfPaddedTime | Framework/Banner/BannerForm.cs:143 | a count up to 2^31 - 1 surrounded by a space and a tab is still that many seconds |
| Banner.TtlOfNoBreakSpace | Framework/Banner/BannerForm.cs:143 | a count preceded by U+00A0 does not parse and gives the default of 10 seconds |
| Banner.TtlOfNumber | Framework/Banner/BannerForm.cs:143 | a Time made of white space, an optional sign and digits whose signed value fits in 32 bits is that many seconds |
| Banner.TtlOfNonNumber | Framework/Banner/BannerForm.cs:143 | any other Time, one with no such decomposition fitting in 32 bits, is 10 seconds |
| Banner.TtlOfTrailingJunk | Framework/Banner/BannerForm.cs:143 | "5x" gives 10 seconds |
| Banner.TtlOfNoDigits | Framework/Banner/BannerForm.cs:143 | an empty Time and a lone "-" give 10 seconds |
| Banner.TtlOfInnerSpace | Framework/Banner/BannerForm.cs:143 | "1 2" gives 10 seconds |
| Banner.TtlOfTooLarge | Framework/Banner/BannerForm.cs:143 | "99999999999", beyond 32 bits, gives 10 seconds |
| Banner.SizeArgument | Framework/Banner/BannerForm.cs:152 | a non-blank Size is used as given |
| Banner.SizeArgumentNotBlank | Framework/Banner/BannerForm.cs:152 | the size argument is never blank; a blank Size becomes "100" |
| Banner.SetDataStep | Framework/Banner/BannerForm.cs:137-208 | refused data changes nothing; accepted data is stored, hiding is cancelled and the timer runs; an existing timer keeps its interval; a new one gets ttl * 1000; the size is `SizeArgument` of the request and the background `DecodeColor` of its colour; offset, hide counter and disposal are untouched |
| Banner.SetDataIdempotent | Framework/Banner/BannerForm.cs:137-208 | giving the same data twice is the same as giving it once |
| Banner.IntervalFixedByFirstData | Framework/Banner/BannerForm.cs:144-149 | a second accepted request replaces the data but keeps the hide interval of the first |
| Banner.PriorityGuard | Framework/Banner/BannerForm.cs:138-142 | equal priority replaces the data; a higher current priority leaves the form as it is |
| Banner.HideStep | Framework/Banner/BannerForm.cs:343-351 | afterwards the form is hiding and its timer is stopped; a form already hiding is unchanged; data, counters, size and background are untouched, and the timer stays present or absent with its interval kept |
| Banner.HideStepIdempotent | Framework/Banner/BannerForm.cs:343-351 | triggering the hide twice is triggering it once |
| Banner.UpdateStep | Framework/Banner/BannerForm.cs:292-305 | the offset moves by positionChange, the hide counter drops by hideChange, and the form is disposed (and hiding) exactly when the counter is at or below zero; hiding changes only then; data, timer, size and background are untouched |
| Banner.Countdown | Framework/Banner/BannerForm.cs:292-305 | n updates move the offset by n * positionChange and the counter by n * hideChange; the form is disposed after them exactly when it already was or, after at least one update, the counter has reached zero |
| Banner.BannerForm.constructor | Framework/Banner/BannerForm.cs:20-25 | a new form has no data, no timer, is not hiding, has offset 0, hide counter 100 and an opaque background |
| Banner.BannerForm.SetData | Framework/Banner/BannerForm.cs:137-208 | the new state is `SetDataStep` of the old |
| Banner.BannerForm.TriggerHidingDisposal | Framework/Banner/BannerForm.cs:343-351 | the new state is `HideStep` of the old |
| Banner.BannerForm.UpdateLocationOpacity | Framework/Banner/BannerForm.cs:292-305 | the new state is `UpdateStep` of the old |
| Manager.RemoveDisposed | Model/NotificationManager.cs:32 | the result holds only live banners, as many as the list had |
| Manager.RemoveDisposedKeepsOrder | Model/NotificationManager.cs:32 | every live banner lands at the position given by the number of live banners before it, so relative order is kept |
| Manager.RemoveDisposedOfAllLive | Model/NotificationManager.cs:32 | a list without disposed banners is unchanged |
| Manager.RemoveDisposedIdempotent | Model/NotificationManager.cs:32 | removing disposed banners twice is removing them once |
| Manager.ScaledIsProduct | Model/NotificationManager.cs:93-98 | the offset accumulated over k banners is k * (h + 10) |
| Manager.ReflowWithAt | Model/NotificationManager.cs:112-118 | walking the list, each live banner gets one step per live banner before it, and a disposed one keeps its offset |
| Manager.ReflowStacked | Model/NotificationManager.cs:105-119 | repositioning changes offsets only (same banners, same order) and leaves the list stacked |
| Manager.StackedGapFree | Model/NotificationManager.cs:105-119 | in a stacked list the live banners, in order, have offsets 0, step, 2 step, and so on, with no gaps |
| Manager.StackedAppend | Model/NotificationManager.cs:93-102 | a banner placed one step per live banner before it keeps a stacked list stacked |
| Manager.IndexOfId | Model/NotificationManager.cs:58 | -1 exactly when no banner has the identity; otherwise the first banner that has it |
| Manager.RemoveFirstId | Model/NotificationManager.cs:58 | an absent banner leaves the list unchanged; a present one is taken out (length drops by one); nothing is added; distinct identities stay distinct |
| Manager.RemoveAndReflow | Model/NotificationManager.cs:56-64 | taking a banner out and restacking keeps the others live, distinct and stacked, and the removed one is gone |
| Manager.Poll | Model/NotificationManager.cs:35-45 | under Do-Not-Disturb only an important request is returned; without it an empty result means the queue was empty and is unchanged; the queue invariant is kept |
| Manager.PollUnderDnd | Model/NotificationManager.cs:36-42 | on any valid queue, a poll under Do-Not-Disturb returns the first important request and leaves the queue as one dequeue after it, dropping every request before it (a skipped-count summary included); with no important request it returns nothing and empties the queue |
| Queue.FirstImportant | Model/NotificationManager.cs:36-42 | the index of the first important request, with none before it, or -1 exactly when no request is important |
| Queue.DequeueBeforeImportant | Model/NotificationManager.cs:36-42 | dequeuing an unimportant head before an important request removes just the head and moves the first important request one place forward |
| Queue.DequeueKeepsNoImportant | Model/NotificationQueue.cs:24-42 | dequeuing from a queue with no important request leaves none, because the skipped-count summary a dequeue may append is not important |
| Manager.PollWithoutDnd | Model/NotificationManager.cs:36-44 | without Do-Not-Disturb a poll is one dequeue: the head, if any |
| Manager.DndDrainsUnimportant | Model/NotificationManager.cs:38-42 | under Do-Not-Disturb a queue with no important request is emptied without a banner, the skipped summary included |
| Manager.PollStep | Model/NotificationManager.cs:29-48 | disposed banners are removed; at the limit the queue is untouched; otherwise at most one banner is appended after the live ones, and under Do-Not-Disturb it is important |
| Manager.PollStepUnfold | Model/NotificationManager.cs:29-48 | a poll in terms of one dequeue: nothing at the limit or on an empty queue, a skipped request polls again, any other request is shown below the live banners |
| Manager.PollStepKeepsBound | Model/NotificationManager.cs:35-44 | a poll never takes a list within the limit above it, keeps it live and stacked, and keeps the existing banners as a prefix |
| Manager.NewBannerPlacement | Model/NotificationManager.cs:85-102 | for a new banner appended to live banners, the count of other live banners is the number before it, and the step is the first banner's height plus 10 |
| Manager.StackedPush | Model/NotificationManager.cs:79-82 | adding a new banner at its computed offset keeps the list stacked |
| Manager.DisposeSweepAsWritten | Model/NotificationManager.cs:126-130 | the sweep as written disposes at most one banner, the first live one |
| Manager.DisposeSweepMissesBanners | Model/NotificationManager.cs:123-133 | with two or more live banners, the second is never disposed and fewer banners are disposed than are live |
| Manager.HandlerRemovesFirst | Model/NotificationManager.cs:56-64 | contract of `Manager.HandleDisposed`: the handler of the first banner leaves the other banners, restacked, live and stacked |
| Manager.HandlerKeepsOthers | Model/NotificationManager.cs:56-72 | contract of `Manager.HandleDisposed`: whether the handler exits or polls, the other banners stay, restacked and in order, at the front of the list |
| Manager.NotificationManager.constructor | Model/NotificationManager.cs:17-27 | the scheduler polls once before its timer runs; the state is that poll from an empty list |
| Manager.NotificationManager.ProcessQueue | Model/NotificationManager.cs:29-48 | the new list and queue are `PollStep` of the old; the scheduler invariant (live, distinct, stacked, within the limit) is kept |
| Manager.NotificationManager.ShowNotification | Model/NotificationManager.cs:50-83 | a live banner with the next identity is appended one step per banner already shown (the step is the first banner's height plus 10, or the new one's when there is none); the list stays live, distinct and stacked |
| Manager.NotificationManager.PositionNewBanner | Model/NotificationManager.cs:85-103 | only the new banner moves, to one step per other live banner; an empty list is left alone |
| Manager.NotificationManager.RepositionBanners | Model/NotificationManager.cs:105-119 | the new list is the reflow of the old (live banners at 0, step, 2 step, ...) |
| Manager.NotificationManager.OnBannerDisposed | Model/NotificationManager.cs:56-72 | contract of `Manager.HandleDisposed`: the banner is removed and the rest restacked; the process exits exactly when that banner's request asked for it, otherwise the queue is polled; the result is `HandleDisposed` |
| Manager.NotificationManager.RemoveBanner | Model/NotificationManager.cs:57-64 | the banner is taken out, the rest are restacked if any remain, and the invariant is kept |
| Manager.NotificationManager.Dispose | Model/NotificationManager.cs:123-133 | the timer stops, every live banner is disposed in list order, and the list is cleared |
| Manager.NotificationManager.DisposeAsWritten | Model/NotificationManager.cs:123-133 | as written, a non-empty list makes the sweep throw after the first live banner; that banner's handler has run, the others stay on the list, and the sweep disposed only the first |
| Positioning.FromCode | Model/MyApplicationContext.cs:85 | casting a defined value gives the member with that value |
| Positioning.FromCodeOfCode | Model/MyApplicationContext.cs:85 | casting a member's value back gives the member |
| Positioning.LowerNameIsLowerOfName | Model/MyApplicationContext.cs:87 | the case-insensitive form of each member name is its declared name in lower case |
| Positioning.NameValue | Model/MyApplicationContext.cs:87 | a name matches ignoring case exactly when it is some member's name, and then gives that member's value |
| Positioning.ParseNames | Model/MyApplicationContext.cs:87 | the name form of `Enum.TryParse` yields a value below 256 when it succeeds |
| Positioning.ParsePositionEnumAsWritten | Model/MyApplicationContext.cs:83-91 | contract of `Positioning.EnumTryParse`: the result is a defined value or whatever `Enum.TryParse` accepted |
| Positioning.ParsePositionEnum | Model/MyApplicationContext.cs:83-91 | agrees with the code as written whenever that yields a defined value, and is top-left otherwise |
| Positioning.NumericCodeParses | Model/MyApplicationContext.cs:84-85 | the decimal value of a member parses to that member |
| Positioning.EnumReadsInteger | Model/MyApplicationContext.cs:87 | contract of `Positioning.EnumTryParse`: text starting with a digit or a sign that reads as a 32-bit integer is accepted as that integer, whether or not a member has that value |
| Positioning.WordParsesAsName | Model/MyApplicationContext.cs:84-88 | contract of `Positioning.EnumTryParse`: a word of letters is not an integer, and `Enum.TryParse` reads it as one name |
| Positioning.NameParses | Model/MyApplicationContext.cs:87-88 | a member's name in any ASCII case parses to that member |
| Positioning.UnknownFallsBack | Model/MyApplicationContext.cs:90 | text that is neither a number nor a name gives top-left |
| Positioning.DivTrunc | Model/MyApplicationContext.cs:113 | division rounds toward zero, as C# integer division does |
| Positioning.ChooseScreen | Model/MyApplicationContext.cs:94-98 | the primary screen when asked for, else the cursor's screen, else the primary screen |
| Positioning.OffsetShift | Model/MyApplicationContext.cs:107-135 | contract of `Positioning.ScreenPosition`: the offset moves top banners down and bottom banners up by exactly the offset, leaves centred banners in place, and never moves a banner sideways |
| Positioning.HorizontalMargins | Model/MyApplicationContext.cs:107-135 | contract of `Positioning.ScreenPosition`: left columns sit 50 from the left edge, right columns 50 from the right edge, and centred banners have margins differing by at most one |
| Positioning.VerticalMargins | Model/MyApplicationContext.cs:107-135 | contract of `Positioning.ScreenPosition`: at offset 0 top banners sit 60 below the top edge and bottom banners 60 above the bottom edge; centred banners are vertically centred to within one |
| Positioning.NoScreenFallback | Model/MyApplicationContext.cs:101-104 | contract of `Positioning.ScreenPosition`: without screen bounds the banner goes to (50, 60 + offset), whatever the position |
| Positioning.PositionArgument | Model/MyApplicationContext.cs:66 | a null or white-space position becomes "0"; any other is passed on unchanged |
| Positioning.BlankPositionIsTopLeft | Model/MyApplicationContext.cs:66 | a request without a position is placed top-left |
| Positioning.DefaultPositionIsTopLeft | Model/MyApplicationContext.cs:66 | the default position "topleft" parses to top-left |
| Positioning.BannerPlacement | Model/MyApplicationContext.cs:140-143 | contract of `Positioning.ScreenPositionAsWritten`: the corrected placement agrees with the code as written whenever the parse yields a defined value |
| Positioning.UndefinedNumberLandsAtOrigin | Model/MyApplicationContext.cs:83-137 | contract of `Positioning.ScreenPositionAsWritten`: as written, position "7" parses to the undefined value 7 and the banner lands at (0, 0), ignoring the screen and the offset; the corrected parse gives top-left |
| AppContext.Without | Model/MyApplicationContext.cs:31 | the banners left on screen are exactly the others |
| AppContext.GrowsTrans | Model/MyApplicationContext.cs:28-62 | the step relation composes: the shown record is only extended (under Do-Not-Disturb only with important requests), identities only grow, the queue's pending count never grows, and only new banners appear |
| AppContext.Dequeue | Model/MyApplicationContext.cs:35-61 | shows at most one new banner under a fresh identity and records it as the current request; without Do-Not-Disturb it shows the head and leaves the queue as one dequeue after it; under Do-Not-Disturb it shows the first important request; an empty result means the queue ran dry |
| AppContext.DequeueAgreesWithPoll | Model/MyApplicationContext.cs:35-61 | on any valid queue, the queue left behind and the request shown are those of the manager's poll (`Manager.Poll`), so only the requests before the one shown are taken, and the rest stay for the next tick |
| AppContext.Poll | Model/MyApplicationContext.cs:28-62 | as written, the banner referred to before the poll is no longer on screen after it; the shown record is only extended (under Do-Not-Disturb only with important requests), the queue never grows and its invariant is kept; a banner referred to afterwards has a handed-out identity and the process has not exited |
| AppContext.Closed | Model/MyApplicationContext.cs:49-57 | the closed banner is gone from the screen; after an exit no banner is referred to; otherwise the scheduler only grows as in a poll, with the queue invariant kept |
| AppContext.ExitFollowsLatestRequest | Model/MyApplicationContext.cs:51-53 | once an exit request has been dequeued, closing any banner ends the process without touching the queue |
| AppContext.IdleTickClosesBanner | Model/MyApplicationContext.cs:30-33 | with nothing queued, a tick still removes the banner on screen and shows nothing |
| AppContext.ReplacingOrphansBanner | Model/MyApplicationContext.cs:28-62 | as written, replacing banner A with a queue [B, C] leaves B and C on screen with only C referred to |
| AppContext.PollCorrected | Model/MyApplicationContext.cs:28-62 | with the replacement kept out of the handler, at most one banner is on screen, the one referred to; the banner referred to before is not the one referred to after; the scheduler only grows |
| AppContext.ClosedCorrected | Model/MyApplicationContext.cs:49-57 | the corrected handler keeps at most one banner on screen, the one referred to, and only grows the scheduler |
| AppContext.ReplacingKeepsOneBanner | Model/MyApplicationContext.cs:28-62 | on the input that orphans a banner as written, the corrected poll shows just B |
| AppContext.ApplicationContext.constructor | Model/MyApplicationContext.cs:13-18 | the state is one poll from an empty scheduler; unless that poll exited, the 100 ms timer runs and a web server feeding the same queue is created exactly for a positive listen port, running when the port is at most 65535 |
| AppContext.ApplicationContext.ProcessQueue | Model/MyApplicationContext.cs:28-62 | the new state is `Poll` of the old |
| AppContext.ApplicationContext.ShowNext | Model/MyApplicationContext.cs:35-61 | the new state is `Dequeue` of the old |
| AppContext.ApplicationContext.CloseBanner | Model/MyApplicationContext.cs:49-57 | the new state is `Closed` of the old |
| AppContext.ApplicationContext.Dispose | Model/MyApplicationContext.cs:154-162 | a web server that exists is stopped and dropped; the scheduler state is unchanged |
| WebService.StatusText | Model/WebServer.cs:187-193 | 200, 400 and 405 map to "OK", "Bad Request" and "Method Not Allowed", each only from its own code; every other code is "Internal Server Error" |
| WebService.QueryMapKeySource | Model/WebServer.cs:259-274 | contract of `WebService.QueryMap`: every key of the dictionary is the case-folded, unescaped key of some piece |
| WebService.QueryMapHasPieceKey | Model/WebServer.cs:259-274 | contract of `WebService.QueryMap`: the key of every piece is in the dictionary |
| WebService.LastOccurrenceWins | Model/WebServer.cs:259-274 | contract of `WebService.QueryMap`: a piece whose key no later piece repeats (after case folding) gives the dictionary's value for that key: the last occurrence wins |
| WebService.BlankQueryIsEmpty | Model/WebServer.cs:256-257 | contract of `WebService.QueryMap`: a null or white-space query gives an empty dictionary |
| WebService.PieceWithoutEquals | Model/WebServer.cs:269-273 | contract of `WebService.QueryMap`: a piece without '=' stores its key with the empty string |
| WebService.PieceSplitsAtFirstEquals | Model/WebServer.cs:262-267 | only the first '=' separates key and value; later ones belong to the value |
| WebService.ParseQueryString | Model/WebServer.cs:252-277 | the loop builds the dictionary of the non-empty '&' pieces in order; a blank query gives an empty one |
| WebService.NoQueryHasNoMessage | Model/WebServer.cs:213-217 | contract of `WebService.UrlConfig`: a URL without '?' gives the default request, whose message is blank |
| WebService.QueryDefaults | Model/WebServer.cs:223-233 | without the keys, the request gets no message, title "Notification from <client>", time "10", position "topleft", size "100", the default sound, no colour and no exit, primary or important flag |
| WebService.QueryFieldsKept | Model/WebServer.cs:223-233 | exit, important and primary are set exactly when their value reads "true" in any case; given message and title are kept; the position is lower-cased |
| WebService.ParseConfigFromUrl | Model/WebServer.cs:211-250 | contract of `WebService.UrlConfig`: the request built field by field is the one the URL describes (`UrlConfig`) |
| WebService.ConfigFromQuery | Model/WebServer.cs:219-246 | parsing the query, assigning the fields one by one and then the default image gives the request the query string describes |
| WebService.QueryOfUrl | Model/WebServer.cs:216-219 | the query of "path?query" is what follows the first '?' |
| WebService.MessageQuery | Model/WebServer.cs:259-267 | the query "message=m" is the dictionary holding just m under "message" |
| WebService.MessageUrl | Model/WebServer.cs:211-233 | contract of `WebService.UrlConfig`: the URL "path?message=m" describes the request of the dictionary holding just that message |
| WebService.MessageRoundTrip | Model/WebServer.cs:211-233 | a message put into a URL comes back as the request's message, with the title naming the client |
| WebService.RequestTarget | Model/WebServer.cs:127-136 | a method and target are found only when there is a non-empty first line; `RequestTargetNeedsTwoSpaces` and `RequestLineRoundTrip` state its value |
| WebService.SplitRequestLine | Model/WebServer.cs:131 | a request line splits at its two spaces into method, target and version |
| WebService.RequestLineRoundTrip | Model/WebServer.cs:127-136 | a well-formed request line gives back its method and target |
| WebService.RequestTargetNeedsTwoSpaces | Model/WebServer.cs:127-133 | a method and target are found exactly when the first line is non-empty and holds at least two spaces (three or more parts) |
| WebService.ShortRequestLine | Model/WebServer.cs:127-133 | a first line of one part, or of two parts around one space, gives no method, no response and no enqueue |
| WebService.Exchange | Model/WebServer.cs:114-183 | no request line, no response and no enqueue; otherwise a response; a request is enqueued exactly when the answer is 200 and then has a non-blank message; answers are 200, 400 or 405 with their reason phrase; the lemmas below give the answer for each kind of request |
| WebService.NonGetIsRefused | Model/WebServer.cs:170-173 | any method other than GET (ignoring case) is answered 405 and enqueues nothing |
| WebService.GetWithBlankMessageIsBadRequest | Model/WebServer.cs:155-163 | a GET whose URL describes a request with a null or blank message, whatever the URL, is answered 400 and enqueues nothing |
| WebService.GetWithoutQueryIsBadRequest | Model/WebServer.cs:157-163 | in particular a GET whose target has no query is answered 400 and enqueues nothing |
| WebService.GetWithMessageIsQueued | Model/WebServer.cs:165-168 | a GET with a non-blank message enqueues exactly the request the URL describes and is answered 200 |
| WebService.HeaderEnd | Model/WebServer.cs:141 | the header block ends between its start and the end of the stream |
| WebService.LaterHeaderWins | Model/WebServer.cs:143-149 | a line "key:value" stores the trimmed value under the trimmed, lower-cased key, overriding any earlier line with that key |
| WebService.ReadHeaders | Model/WebServer.cs:139-150 | the loop stops at the first empty line and builds the header dictionary of the lines before it |
| WebService.Dedup | Model/WebServer.cs:307-310 | de-duplication never lengthens the list |
| WebService.DedupCorrect | Model/WebServer.cs:307-310 | the result has no repeats and holds exactly the elements of the input |
| WebService.DedupKeepsHead | Model/WebServer.cs:286 | the first element stays first |
| WebService.BindAddressesShape | Model/WebServer.cs:279-332 | the bind list starts with "127.0.0.1", has no duplicates, and holds exactly localhost and the IPv4 addresses of interfaces that are up and not loopback |
| WebService.WebServer.constructor | Model/WebServer.cs:22-26 | a new server feeds the given queue, listens nowhere and is not running |
| WebService.WebServer.AddUnicastAddresses | Model/WebServer.cs:301-312 | the inner loop appends each new IPv4 address of one interface, extending the de-duplicated list |
| WebService.WebServer.GetNetworkInterfaceAddresses | Model/WebServer.cs:279-332 | the nested loops compute `BindAddresses`: localhost first, no duplicates |
| WebService.WebServer.Start | Model/WebServer.cs:28-67 | a port outside 1..65535 changes nothing; otherwise listeners are added for the bind addresses that accept one, in order, and the server runs |
| WebService.WebServer.Stop | Model/WebServer.cs:69-91 | a running server drops every listener and stops; a stopped one is unchanged |
| WebService.WebServer.HandleClient | Model/WebServer.cs:114-183 | the response is the one `Exchange` gives; the queue changes exactly by one `Enqueue` of the accepted request, and otherwise not at all |

## Findings

| source | as written | input that shows it | evidently intended | confidence | as-written member | corrected member |
|---|---|---|---|---|---|---|
| Model/MyApplicationContext.cs:83-91 | the fallback `Enum.TryParse` accepts any integer, defined or not, and `GetScreenPosition` (lines 107-137) has no case for an undefined value, so `(x, y)` stays `(0, 0)` | position "7" (or "-1", " 7") | only the seven defined positions, with top-left as fallback, as the `Enum.IsDefined` check on the first branch shows | high (documented `Enum.TryParse` behaviour), not executed | Positioning.UndefinedNumberLandsAtOrigin | Positioning.ParsePositionEnum |
| Model/NotificationManager.cs:123-133 | `banner.Dispose()` raises the banner's Disposed event, whose handler (lines 56-72) removes the banner from `_activeBanners` while the `foreach` enumerates it; the next step of the enumeration throws, so later banners are neither disposed nor cleared, and the handler may also poll and show a new banner | two live banners at shutdown | every live banner disposed and the list cleared | medium (depends on the Disposed event running synchronously inside `Dispose`), not executed | Manager.DisposeSweepMissesBanners | Manager.NotificationManager.Dispose |
| Model/MyApplicationContext.cs:28-62 | disposing the visible banner runs its handler, which polls and shows the next request as a new form; back in the outer poll, line 32 sets `_bannerForm = null`, forgetting that form, and the outer poll shows one more | banner A on screen, queue [B, C], no exit flag | one banner at a time: A replaced by B | medium (depends on the Disposed event running synchronously inside `Dispose`), not executed | AppContext.ReplacingOrphansBanner | AppContext.ReplacingKeepsOneBanner |

## Left out

- Floating-point opacity: the `Opacity` arithmetic of `UpdateLocationOpacity` and the `FadeOut` animation. The colour decoder keeps opacity as a tag (`Standard` is 0.9, `Alpha(a)` is a / 255).
- Banner.UpdateStep: disposes the form only when the hide counter runs out; the `Opacity <= 0.0` condition on the same line is left out because opacity is a floating-point value.
- Banner.SetDataStep: the interval is `ttl * 1000` as an unbounded integer. Two behaviours are not modelled: the wrap-around of `(int)ttl.TotalMilliseconds` for very large times, and the exception a non-positive interval raises in the timer.
- Layout and graphics in `BannerForm`: `ApplySizeScaling` and the `double.TryParse` of the size (only the size argument is modelled), labels, images, the rounded region, sound, and the call of the position delegate that moves the window.
- The image half of `CreateBannerData`: parsing and resizing of the image. Only the position default is modelled.
- `BannerData.Image` is not part of the model. `BannerData.Position` is an optional function value that the model carries but never calls.
- The `_bannerForm.Visible` test: a form the single-banner scheduler refers to is taken as visible, since it is shown as soon as it is created.
- The web server's sockets and tasks: `ListenForRequests`, stream reading and writing, and the JSON body and fixed headers of the response. The response is modelled as status, reason phrase and message; the request as the lines read.
- The parsed headers are built but never used by the dispatch, as in the source.
- Interface enumeration failing partway: the model has either the full interface list or none (`None` gives localhost only). The outer `catch` of `GetNetworkInterfaceAddresses` only rebuilds that same one-element list.
- `Uri.UnescapeDataString`, the regular-expression lookup in `DefaultImages`, `IsDoNotDisturbActive`, `Screen.PrimaryScreen`/`Screen.FromPoint` and the heights of banner windows are parameters; the `DefaultImages` table is not part of this model.
- Fields declared in partial files that are not part of this model (`Image`, `Size`, `Primary`, `Important`, `ApiListenPort`, `MaxNotificationsOnScreen`) are plain fields. They default to null, false and 0, except `MaxNotificationsOnScreen`, which defaults to 4.
- `BannerPositionEnum` is not part of this model; its members are taken to have the values 0 to 6 in the order TopLeft, TopCenter, TopRight, BottomLeft, BottomCenter, BottomRight, Center.
- Config file I/O in `Config.Load` (`LoadFromFile`, `SaveToFile`, the JSON files next to the program and in the profile) and reflection over properties.
- Locks in `NotificationQueue` and `NotificationManager`: operations are sequential and atomic. Timers are a running flag and an interval; a tick is a call of the poll.
- `Utils.Exit(0)` is the `exit` result of the manager's handler and the `exited` flag of the application context. Logging (`Utils.Log`, console output, `SetConfigForLogging`) is omitted.
- Text handling is ordinal. White space for `Trim` and `IsNullOrWhiteSpace` covers ASCII and Latin-1 white space. `Enum.TryParse` is modelled for names, comma lists and integers, but not for hexadecimal or culture-specific number forms.
- Strings.Lower: maps only the ASCII letters A to Z. `ToLowerInvariant` also lowers other cased letters, such as 'Ä' to 'ä'; those are kept unchanged here.
- Strings.ParseInt: trailing NUL characters, which `int.TryParse` also accepts, make the parse fail; the culture's sign symbols are taken to be '+' and '-'.
- Queue.EnqueueStep: the skipped count (`_skipped++`) is an unbounded integer; the C# `int` would wrap after 2^31 - 1 dropped requests.
- Banner.UpdateStep: the offset and hide counters are unbounded integers; C# `int` arithmetic on them wraps at 2^31.
- Manager.ScaledIsProduct: the stacking offset `k * (h + 10)` is an unbounded integer, without the wrap-around of C# `int`.
- Manager.ReflowStacked: the reflowed offsets are unbounded integers, without the wrap-around of C# `int`.
- Positioning.ScreenPosition: the screen geometry is computed on unbounded integers, without the wrap-around of C# `int`.
- The named-pipe server, the tray icon, `Program.cs` and the image helpers are outside this model.
