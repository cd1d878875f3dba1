# custom-subtitle: subtitle-synchronised playback and the video record store

A Dafny model of the core of DevZonayed/custom-subtitle, a browser video catalog. An admin page registers YouTube videos with a title, a description and a subtitle document. A public page plays a video with a subtitle overlay that the app draws itself.

The model covers these parts:

- **Time conversion** (`vttTimeToSeconds`, `time_conversion.dfy`). An `"HH:MM:SS.mmm"` string is split on `:` and `.`, and each field is read with `parseInt(_, 10) || 0`. The JavaScript built-ins this uses are modelled in `js_strings.dfy`: `String.prototype.split` with a one-character separator, and `parseInt` with radix 10. The conversion returns a `Completion`: either a normal value or the `TypeError` thrown when the third field is missing.
- **Cue conversion and lookup** (`cues.dfy`). `parsedData.map(...)` turns parser records into cues and throws as soon as one timestamp throws. `cues.find(...)` selects the active cue. `SubtitlesOverlay` shows its text.
- **The player** (`playback.dfy`). The nine `useState` fields of `VideoPlayer` form `SessionState`. Every handler and callback is an `Event`, and `Step`/`Run` give the state machine. The subtitle-load effect is `LoadedCues`, and the render is `ViewOf`. The class `VideoPlayer` keeps the same state in mutable fields. Each handler is proved to move `Snapshot()` by exactly one `Step`; `LoadSubtitles` moves it by one `CuesLoaded` step or leaves it unchanged.
- **The record store** (`storage.dfy`). `getVideos`, `saveVideo`, `updateVideo` and `deleteVideo` are methods of a `VideoStore` class. Its one field is the decoded list under the `localStorage` key, or `None` while the key has never been written.
- **YouTube id extraction** (`youtube.dfy`). The two regular expressions of `getYouTubeVideoId` are modelled as leftmost-first searches with the alternatives tried in order. The search is proved equal to a declarative description of the leftmost capture.
- **URL validation** (`video_form.dfy`). The anchored pattern of `validateYouTubeUrl` is modelled as the backtracking matcher runs it. It is proved equal to the pattern's language: scheme, then optional `www.`, then host, then a one-line path.

Timestamps are exact `real`s, and integers are unbounded.

In these places the model follows the code, which behaves differently from what one might expect of a timestamp reader:

- A comma is **not** a fractional separator. `"00:01:05,250"` reads as 65 seconds (`CommaIsNotASeparator`).
- The result can be negative, because `parseInt` accepts a sign (`SignedHours`).
- A timestamp with fewer than two colons does not degrade to 0. It throws, and the surrounding `try` drops the whole load, so `cues` keep their previous value (`ConvertRecords`, `LoadedCues`).
- Unparseable digits do degrade to 0 (`UnreadableFieldsAreZero`).

## Model

| member | source | states |
|---|---|---|
| JsStrings.Split | src/components/VideoPlayer.tsx:36-37 | `split` with a one-character separator gives one more piece than there are separators, and no piece contains the separator |
| JsStrings.JoinSplit | src/components/VideoPlayer.tsx:36 | joining the pieces of a split with the separator gives back the string |
| JsStrings.SplitJoin | src/components/VideoPlayer.tsx:36 | splitting a join of separator-free pieces gives back the pieces |
| JsStrings.SplitCons | src/components/VideoPlayer.tsx:36 | the first separator ends the first piece; the rest is split independently |
| JsStrings.TrimStart | src/components/VideoPlayer.tsx:38-41 | `parseInt` skips exactly the leading ECMAScript white space |
| JsStrings.DigitPrefix | src/components/VideoPlayer.tsx:38-41 | `parseInt` reads the longest run of decimal digits |
| JsStrings.ParseIntDigits | src/components/VideoPlayer.tsx:38-41 | white space, an optional sign, digits and a non-digit tail read as the signed decimal value of the digits |
| JsStrings.ParseIntNoDigits | src/components/VideoPlayer.tsx:38-41 | without a digit after white space and sign, `parseInt` is NaN and `\|\| 0` gives 0 |
| JsStrings.ParseIntOfDigits | src/components/VideoPlayer.tsx:38-41 | a plain digit string reads as its decimal value |
| JsStrings.ParseIntCases | src/components/VideoPlayer.tsx:38-41 | `parseInt` is NaN exactly when no digit follows the leading white space and the optional sign; a number read after `-` is at most 0 and any other at least 0 |
| JsStrings.ParseSignedCases | src/components/VideoPlayer.tsx:38-41 | the same after the white space is skipped |
| JsStrings.ParseIntOrZeroCases | src/components/VideoPlayer.tsx:38-41 | `parseInt(_, 10) \|\| 0` is 0 when `parseInt` is NaN and the parsed number otherwise |
| JsStrings.ParseIntUnpadded | src/components/VideoPlayer.tsx:38-41 | a sign, digits and a non-digit tail read as the signed value of the digits |
| JsStrings.ParseIntOfDigitsThen | src/components/VideoPlayer.tsx:38-41 | digits followed by a non-digit tail read as the value of the digits |
| JsStrings.ParseIntOfNegativeDigits | src/components/VideoPlayer.tsx:38-41 | `-` followed by digits reads as the negated value of the digits |
| JsStrings.SignPrefixOf | src/components/VideoPlayer.tsx:38-41 | a leading `+` or `-` is taken as the sign, and nothing else is |
| JsStrings.NoDigitPrefix | src/components/VideoPlayer.tsx:38-41 | text that does not start with a digit has no digits to read |
| TimeConversion.VttTimeToSeconds | src/components/VideoPlayer.tsx:34-43 | the call throws exactly when the string has fewer than two colons, and then with the `split` of `undefined` error |
| TimeConversion.ReadsThreeFields | src/components/VideoPlayer.tsx:36-42 | `a:b:c` with colon-free fields reads those three fields |
| TimeConversion.DigitTimestamp | src/components/VideoPlayer.tsx:34-43 | a digit timestamp `HH:MM:SS.mmm` reads as `h*3600 + m*60 + s + ms/1000` |
| TimeConversion.DigitTimestampIs | src/components/VideoPlayer.tsx:34-43 | a digit timestamp whose fields make `t` seconds reads as `t` |
| TimeConversion.NoFraction | src/components/VideoPlayer.tsx:37 | without a `.` the thousandths default to 0 |
| TimeConversion.ExtraFieldsIgnored | src/components/VideoPlayer.tsx:36 | colon-separated fields after the third are ignored |
| TimeConversion.FractionIsThousandths | src/components/VideoPlayer.tsx:41-42 | `"00:00:05.5"` is 5.005 s: the fraction counts thousandths, not a decimal fraction |
| TimeConversion.FiveSecondsFiveThousandths | src/components/VideoPlayer.tsx:42 | the fields `00`, `00`, `05`, `5` make 5.005 s |
| TimeConversion.CommaIsNotASeparator | src/components/VideoPlayer.tsx:37-40 | in `HH:MM:SS,mmm` the seconds read only their digits and the thousandths are lost |
| TimeConversion.UnreadableFieldsAreZero | src/components/VideoPlayer.tsx:38-41 | fields that `parseInt` reads as NaN count as 0, so the result is 0 and nothing is thrown |
| TimeConversion.BadTimeIsZero | src/components/VideoPlayer.tsx:38-42 | `"bad:ti:me"` reads as 0 |
| TimeConversion.UnreadableField | src/components/VideoPlayer.tsx:38-41 | a field that starts with neither white space, a sign nor a digit reads as NaN |
| TimeConversion.FieldsWithoutFraction | src/components/VideoPlayer.tsx:36-42 | without a `.` each of the three fields is read with `parseInt(_, 10) || 0` and the thousandths are 0 |
| TimeConversion.FieldsWithoutFractionAre | src/components/VideoPlayer.tsx:36-42 | the same, for fields whose values are already known |
| TimeConversion.SignedHours | src/components/VideoPlayer.tsx:38-42 | a leading minus sign makes the hours negative: they count as `Signed("-", h)`, that is `-h` |
| Cues.ConvertRecord | src/components/VideoPlayer.tsx:120-124 | the callback succeeds exactly when both times have two colons; its cue then holds the two times as `vttTimeToSeconds` reads them and the record's text; otherwise it throws the split error |
| Cues.MapThrowing | src/components/VideoPlayer.tsx:120-124 | `map` with a throwing callback completes exactly when every call does, keeping count and order; otherwise the first call that throws gives the error |
| Cues.ConvertRecords | src/components/VideoPlayer.tsx:120-124 | the map succeeds exactly when every record has two colons in both times; it then keeps count and order and each cue is its record's conversion; otherwise it throws the conversion's error |
| Cues.MapSingleton | src/components/VideoPlayer.tsx:120-124 | `map` over one element whose call completes gives the one-element array of its result |
| Cues.RecordConverts | src/components/VideoPlayer.tsx:120-124 | a record whose two times read as `start` and `end` converts to the cue from `start` to `end` with its text |
| Cues.ConvertSingle | src/components/VideoPlayer.tsx:120-124 | such a record alone converts to the one-cue array |
| Cues.ActiveCue | src/components/VideoPlayer.tsx:56-58 | `find` gives none exactly when no cue covers the time, else the first covering cue in sequence order |
| Cues.FirstMatchWins | src/components/VideoPlayer.tsx:56-58 | over `a + b`, a cue of `a` wins and `b` is consulted only when `a` has none |
| Cues.InclusiveBounds | src/components/VideoPlayer.tsx:57 | a cue is active exactly on the closed interval from start to end |
| Cues.Overlay | src/components/VideoPlayer.tsx:53-60 | the overlay shows nothing when hidden or when no cue covers the time, else the first covering cue's text |
| Playback.ViewOf | src/components/VideoPlayer.tsx:174-224 | the error placeholder exactly when `error` is set, otherwise the player with the overlay's text |
| Playback.DocumentOf | src/components/VideoPlayer.tsx:107-116 | non-empty content is used as is; otherwise a non-empty source's fetched text; otherwise nothing |
| Playback.LoadedCues | src/components/VideoPlayer.tsx:91-133 | no tracks means no load |
| Playback.LoadedFromFirstDocument | src/components/VideoPlayer.tsx:91-133 | a load happens exactly when there is a first track with a document whose records all convert, and it sets their conversion |
| Playback.Step | src/components/VideoPlayer.tsx:136-172 | a player error sets `error` and nothing clears it; `cues` change only on a load, to the loaded cues; the rate changes only on a rate change, to the chosen rate |
| Playback.RunConcat | src/components/VideoPlayer.tsx:136-172 | handling `a` then `b` is handling `a + b` |
| Playback.ErrorIsTerminal | src/components/VideoPlayer.tsx:169-172 | no event clears `error` |
| Playback.ErrorPlaceholderStays | src/components/VideoPlayer.tsx:174-180 | after a player error the placeholder is rendered whatever happens next |
| Playback.CuesChangeOnlyOnLoad | src/components/VideoPlayer.tsx:136-172 | only a subtitle load changes `cues` |
| Playback.RateStaysOffered | src/components/VideoPlayer.tsx:288-299 | the rate stays one of 0.5, 1, 1.5, 2 while changes come from the menu |
| Playback.TogglesAreInvolutions | src/components/VideoPlayer.tsx:136-142 | play/pause, mute and the subtitle toggle flip only their own field and undo themselves |
| Playback.PositionUpdates | src/components/VideoPlayer.tsx:138-157 | progress sets both positions; seek sets only the fraction; volume is stored unclamped |
| Playback.HiddenSubtitlesShowNothing | src/components/VideoPlayer.tsx:53 | a hidden overlay shows nothing |
| Playback.NothingToLoad | src/components/VideoPlayer.tsx:92-116 | no track, or a first track with neither content nor source, leaves `cues` alone |
| Playback.OnlyFirstTrack | src/components/VideoPlayer.tsx:94-95 | tracks after the first do not matter |
| Playback.ContentTakesPrecedence | src/components/VideoPlayer.tsx:107-112 | with non-empty content the fetch is irrelevant |
| Playback.FetchedSourceLoads | src/components/VideoPlayer.tsx:109-126 | with no content and a fetched source, the fetched text is parsed: converted cues are loaded, and a conversion that throws loads nothing |
| Playback.FailedFetchLoadsNothing | src/components/VideoPlayer.tsx:109-129 | a failed fetch is caught and leaves `cues` alone |
| Playback.HelloStart | src/components/VideoPlayer.tsx:34-43 | `"00:00:01.000"` reads as 1 s |
| Playback.HelloEnd | src/components/VideoPlayer.tsx:34-43 | `"00:00:03.000"` reads as 3 s |
| Playback.HelloRecordConverts | src/components/VideoPlayer.tsx:118-124 | the block "Hello" from `00:00:01.000` to `00:00:03.000` converts to the one cue from 1 s to 3 s |
| Playback.HelloScenario | src/components/VideoPlayer.tsx:48-60 | with the converted "Hello" cue loaded, "Hello" is shown at 2 s, and nothing after the subtitle toggle |
| Playback.VideoPlayer.constructor | src/components/VideoPlayer.tsx:72-85 | every field takes its `useState` initial value |
| Playback.VideoPlayer.HandlePlayPause | src/components/VideoPlayer.tsx:136 | the state moves by one `PlayPause` step |
| Playback.VideoPlayer.HandleVolumeChange | src/components/VideoPlayer.tsx:138-140 | the state moves by one `VolumeChange` step |
| Playback.VideoPlayer.HandleToggleMute | src/components/VideoPlayer.tsx:142 | the state moves by one `ToggleMute` step |
| Playback.VideoPlayer.HandleProgress | src/components/VideoPlayer.tsx:148-151 | the state moves by one `Progress` step |
| Playback.VideoPlayer.HandleSeek | src/components/VideoPlayer.tsx:153-157 | the state moves by one `Seek` step and the seek request is recorded |
| Playback.VideoPlayer.HandlePlaybackRateChange | src/components/VideoPlayer.tsx:159 | the state moves by one `PlaybackRateChange` step |
| Playback.VideoPlayer.HandleToggleSubtitles | src/components/VideoPlayer.tsx:310 | the state moves by one `ToggleSubtitles` step |
| Playback.VideoPlayer.HandleError | src/components/VideoPlayer.tsx:169-172 | the state moves by one `PlayerError` step |
| Playback.VideoPlayer.LoadSubtitles | src/components/VideoPlayer.tsx:91-133 | the state moves by one `CuesLoaded` step with `LoadedCues`, or stays as it was when there is nothing to load |
| Playback.VideoPlayer.Render | src/components/VideoPlayer.tsx:174-224 | the render is `ViewOf` of the current state |
| Playback.VideoPlayer.DisplayedSubtitle | src/components/VideoPlayer.tsx:220-224 | text is shown exactly when there is no error, subtitles are on and some cue covers the time; it is the first such cue's text |
| Storage.FindIndex | src/utils/storage.ts:18 | -1 exactly when no record has the id, else the first position that has it |
| Storage.RemoveAll | src/utils/storage.ts:27 | keeps exactly the records with another id |
| Storage.RemoveAllConcat | src/utils/storage.ts:27 | the filter works record by record and keeps relative order |
| Storage.RemoveAllKeepsOthers | src/utils/storage.ts:27 | every record with another id survives with its multiplicity |
| Storage.RemoveAbsent | src/utils/storage.ts:25-29 | deleting an absent id keeps the list unchanged |
| Storage.RemoveAllIdempotent | src/utils/storage.ts:25-29 | deleting twice is deleting once |
| Storage.ReplaceFirst | src/utils/storage.ts:18-20 | only the first record with the id is replaced; an absent id changes nothing |
| Storage.ReplaceThenFind | src/utils/storage.ts:16-23 | after an update the id is found at the same position |
| Storage.AppendThenFind | src/utils/storage.ts:10-14 | a saved record with a new id is found at the end |
| Storage.RemoveThenFind | src/utils/storage.ts:25-29 | after a delete the id is not found |
| Storage.SaveThenDelete | src/utils/storage.ts:10-29 | deleting a just-saved record with a new id restores the list |
| Storage.VideoStore.Videos | src/utils/storage.ts:5-8 | an absent key reads as the empty list |
| Storage.VideoStore.constructor | src/utils/storage.ts:5-8 | a fresh storage holds no key |
| Storage.VideoStore.GetVideos | src/utils/storage.ts:5-8 | the stored list, or empty when the key is absent |
| Storage.VideoStore.SaveVideo | src/utils/storage.ts:10-14 | the stored list becomes the old list plus the record at the end |
| Storage.VideoStore.UpdateVideo | src/utils/storage.ts:16-23 | the first record with the id is replaced; with an absent id nothing is written |
| Storage.VideoStore.DeleteVideo | src/utils/storage.ts:25-29 | the filtered list is always written |
| YouTube.IdRun | src/utils/youtube.ts:5-6 | `[^&\n?#]+` greedy: the longest delimiter-free prefix |
| YouTube.MatchAt | src/utils/youtube.ts:5 | a capture at a position is non-empty and delimiter-free |
| YouTube.MatchAtIdAt | src/utils/youtube.ts:5 | a match at a position is the id after the first alternative followed by one, or none when no alternative is |
| YouTube.Search | src/utils/youtube.ts:10 | a capture is non-empty and delimiter-free |
| YouTube.SearchIsLeftmost | src/utils/youtube.ts:10 | the search fails only when no position matches, and otherwise returns the leftmost match |
| YouTube.SearchLeftmost | src/utils/youtube.ts:9-13 | a successful search returns the leftmost capture, earliest alternative first |
| YouTube.SearchFails | src/utils/youtube.ts:9-15 | a search fails exactly when no alternative is followed by an id anywhere |
| YouTube.GetYouTubeVideoId | src/utils/youtube.ts:1-20 | a returned id is non-empty and delimiter-free |
| YouTube.WatchOrShortFirst | src/utils/youtube.ts:4-13 | a watch or short link anywhere wins, with its leftmost capture |
| YouTube.EmbedFallback | src/utils/youtube.ts:4-13 | otherwise an embed link gives its leftmost capture |
| YouTube.NullWhenNoMatch | src/utils/youtube.ts:1-20 | null exactly when neither pattern occurs |
| YouTube.SearchAtStart | src/utils/youtube.ts:10-12 | an id after the only alternative present at position 0 is returned |
| YouTube.LeadingPrefix | src/utils/youtube.ts:5 | a URL that starts with a watch or short-link prefix, then an id, then a delimiter gives that id |
| VideoForm.ValidateYouTubeUrl | src/components/VideoForm.tsx:25-28 | `pattern.test(url)` is true exactly when the URL is scheme + optional `www.` + host + `/` + one or more non-line-terminators |
| VideoForm.ValidateMeansPattern | src/components/VideoForm.tsx:25-28 | the backtracking matcher accepts exactly scheme + optional `www.` + host + `/` + one or more non-line-terminators |
| VideoForm.AcceptsEveryChoice | src/components/VideoForm.tsx:26 | every choice of scheme, subdomain and host, with a slash and a one-line tail, is accepted |
| VideoForm.AcceptedIsOneLine | src/components/VideoForm.tsx:26 | an accepted URL contains no line terminator |
| VideoForm.RejectsBareSlash | src/components/VideoForm.tsx:26 | `youtube.com/` is refused |
| VideoForm.RejectsMissingPath | src/components/VideoForm.tsx:26 | `youtu.be` is refused |
| VideoForm.RejectsOtherScheme | src/components/VideoForm.tsx:26 | `ftp://youtube.com/x` is refused |
| VideoForm.RejectsOtherSubdomain | src/components/VideoForm.tsx:26 | `m.youtube.com/x` is refused |
| VideoForm.RejectsUpperCase | src/components/VideoForm.tsx:26 | the test is case-sensitive |
| VideoForm.RejectsLineBreak | src/components/VideoForm.tsx:26 | a line break in the path is refused |

## Left out

- JSX, styling and icons are not modelled. The view is reduced to the state it shows (`View`).
- The fullscreen handler (src/components/VideoPlayer.tsx:161-167) is not modelled: it only calls browser fullscreen APIs.
- The external player (`ReactPlayer`) is not modelled. `seekTo` is recorded in `seekRequests`, and a `null` player ref is not modelled. Progress reports and errors arrive as events with arbitrary values.
- The SubRip parser (`srt-parser-2`) is a function parameter `fromSrt` and is assumed not to throw. How it splits a document into records, and what time format it produces, is not part of this model.
- `fetch` and `response.text()` are a function parameter whose outcome is text or failure.
- Effect scheduling and asynchrony are not modelled. A load is one atomic `CuesLoaded` event, and interleavings are sequences of events. The effect has no cancellation guard, so a slow load for old `subtitles` can still overwrite newer cues; the model does not capture this.
- `parseFloat` on slider and menu values is not modelled. Handlers receive the parsed number.
- `console.error` calls are not modelled.
- `JSON.parse` failures on corrupted storage, a stored empty string (read as `[]`), and quota errors from `setItem` are not modelled. The store holds decoded lists.
- Seconds are exact reals, and `parseInt` gives exact integers. Floating-point rounding, `Infinity` for huge digit strings, and `-0` are not modelled.
- The subtitle toggle button is only rendered when tracks exist (src/components/VideoPlayer.tsx:304). `ToggleSubtitles` is allowed in any state.
- `validateYouTubeUrl` is never called in the component. The form's HTML `pattern` attribute (src/components/VideoForm.tsx:42) is checked by the browser and is not modelled. The form state and the submit handler are not part of this model.
- The `try`/`catch` in src/utils/youtube.ts:2-19 cannot be triggered by a string argument, so the model has no error path there.
- Regular expressions work on UTF-16 code units. The model works on Unicode scalar values, which give the same result for these patterns.
- src/pages/AdminPage.tsx, src/pages/PublicPage.tsx, src/App.tsx, src/components/Navigation.tsx, src/utils/subtitles.ts and src/types/video.ts are not part of this model. Only the `Video` record type is taken from them.
- YouTube.GetYouTubeVideoId: its own contract states only the shape of the id. The priority between the two patterns, the leftmost choice and the null case are stated by `WatchOrShortFirst`, `EmbedFallback` and `NullWhenNoMatch`.
