# meter-pwa in Dafny

A model of the self-contained logic of meter-pwa, a health-tracking progressive web app.
Users keep several profiles (family members). For each profile they record metrics
(weight, blood pressure, pulse and anything the AI endpoint detects) and media (photos and
voice notes). Each media item is sent to an inference endpoint, and the measurements it
returns become metric rows.

The model covers these parts of the app:

- **Measurement normalisation** (`AiAnalysis`). The metric-type classifier, unit
  normalisation, and the conversion of detections into metric drafts.
- **Services over in-memory tables.** The Supabase backend's tables and calls become:
  - the metric listing with its filters, soft delete and per-day statistics (`MetricService`);
  - profiles with age computation (`ProfileService`);
  - media upload, listing, deletion and the analysis status machine (`MediaService`).
- **The feed** that merges metrics and media (`FeedEntries`).
- **The selected-profile state and the selection components.** The context with its
  local-storage sync (`ProfileContext`), the switcher with cyclic navigation
  (`ProfileSwitcher`), and the drop-down selector (`ProfileSelector`).
- **The UI state machines.**
  - The profile manager dialog (`ProfileManager`) and the settings page (`Settings`), which
    share one form (`ProfileForm`).
  - The demo feed page (`FeedPage`).
  - Theme persistence in the app shell (`AppTheme`).
- **The two Node scripts.**
  - The static server's path resolution and MIME lookup (`Serve`).
  - The Railway start-up script's config generation and `<script>` injection (`RailwayStart`).

`Wrappers` holds `Option`, `Result` and `Outcome`. `Text` holds the JavaScript string
operations the code relies on:
- `toLowerCase` and `toUpperCase` on ASCII;
- the `\s` white-space set, `trim` and `split(/\s+/)`;
- `includes`, first-occurrence `replace`, and `split(c).pop()`.

`Sequences` holds `filter`, `limit` and a stable sort by a descending integer key. The sort
is how `Array.prototype.sort` behaves. The listings' `order(..., {ascending: ...})` uses the
same sort, so rows with equal keys keep their table order; see "## Left out".

How the model represents what the code depends on:

- **Timestamps** are integers in milliseconds. The UTC calendar day of a timestamp is
  `timestamp / 86400000`.
- **Numbers** are `real`s.
- **Parameters** stand for everything the code asks of the browser, the clock or the
  backend:
  - `parseFloat`, `new Date(dateOfBirth)` and `JSON.stringify`;
  - `Number.prototype.toString` and `readFileSync`;
  - `crypto.randomUUID`, the clock and the ids the database assigns;
  - every backend result: an error, an `Outcome` or a `Result`.
- **Component state** that React updates step by step is a class. Its handlers are
  methods with `modifies this`, and each handler's `ensures` states the whole new state.
- **Pure computations** are functions, with lemmas about them.

## Model

| member | source | states |
|---|---|---|
| AiAnalysis.AudioApiUrl | src/services/ai-analysis.service.ts:10 | an unset image URL gives an unset audio URL; a URL without "/analizeimage" is kept; otherwise its first "/analizeimage" (no earlier occurrence) is spliced out and "/analizeaudio" put in its place, and the result contains "/analizeaudio" |
| AiAnalysis.AudioConfiguredIff | src/services/ai-analysis.service.ts:5-10 | the audio endpoint is configured (set and non-empty) exactly when the image endpoint is |
| AiAnalysis.ClassifyRecognized | src/services/ai-analysis.service.ts:98-120 | the ordered tests yield a type exactly on the recognised normalized texts, and that type is one of the six canonical ones |
| AiAnalysis.SystolicBeforeDiastolic | src/services/ai-analysis.service.ts:95-104 | a type whose normalized form contains "systolic" maps to systolicPressure, even when it also contains "diastolic" |
| AiAnalysis.CanonicalTypesAreFixedPoints | src/services/ai-analysis.service.ts:94-120 | each of the six canonical types is recognised and maps to itself |
| AiAnalysis.MappedTypeIsCanonicalIff | src/services/ai-analysis.service.ts:94-131 | the result is canonical exactly when the normalized type is recognised; otherwise it is the camelCase form |
| AiAnalysis.MappingIgnoresCaseAndSpacing | src/services/ai-analysis.service.ts:95-131 | two types with the same normalized form map to the same canonical type; in every case their results differ at most in letter case |
| AiAnalysis.NormalizedTwoWords | src/services/ai-analysis.service.ts:95 | two words with any white space between them normalize to the lower-cased words joined |
| AiAnalysis.BloodPressureSpellings | src/services/ai-analysis.service.ts:95-108 | "Blood Pressure", "BLOODPRESSURE" and "blood  pressure" all map to bloodPressure |
| AiAnalysis.CapitalizeAll | src/services/ai-analysis.service.ts:125-129 | one capitalised word per input word, in order |
| AiAnalysis.CamelCaseHasNoSpace | src/services/ai-analysis.service.ts:123-130 | the camelCase form contains no white space |
| AiAnalysis.CamelCaseLowered | src/services/ai-analysis.service.ts:123-130 | lower-casing the camelCase form gives the normalized type: the words keep their order and only their case changes |
| AiAnalysis.CamelCaseOfOneWord | src/services/ai-analysis.service.ts:123-130 | a type with no white space is only lower-cased |
| AiAnalysis.MappedTypeHasNoSpace | src/services/ai-analysis.service.ts:94-131 | no mapped type contains white space |
| AiAnalysis.RemappingLowercasesFreeText | src/services/ai-analysis.service.ts:94-131 | mapping a mapped type again gives its lower-cased form, so the free-text results are not fixed points |
| AiAnalysis.UnitKeyIdempotent | src/services/ai-analysis.service.ts:137 | the lower-cased, trimmed unit is its own key |
| AiAnalysis.FixedUnits | src/services/ai-analysis.service.ts:140-146 | the three pressure types always get mmHg and pulse always gets bpm, whatever the unit |
| AiAnalysis.UnitIgnoresCaseAndPadding | src/services/ai-analysis.service.ts:136-158 | for a canonical type only the lower-cased, trimmed unit matters; any other type returns the unit untouched |
| AiAnalysis.WeightUnitIdempotent | src/services/ai-analysis.service.ts:147-150 | a unit containing "kg" gives kg, checked before "lb", which gives lbs; normalizing the result again changes nothing |
| AiAnalysis.TemperatureScales | src/services/ai-analysis.service.ts:151-153 | c or celsius gives °C, and f or fahrenheit gives °F, after lower-casing and trimming |
| AiAnalysis.TemperatureOtherUnitIdempotent | src/services/ai-analysis.service.ts:151-154 | any other temperature unit becomes its lower-cased, trimmed form, and normalizing that again changes nothing |
| AiAnalysis.CelsiusSymbolIsLowered | src/services/ai-analysis.service.ts:151-154 | the symbol °C itself comes back as °c, so the temperature rule changes its own output °C |
| AiAnalysis.ConvertMeasurementsToMetrics | src/services/ai-analysis.service.ts:165-194 | at most one draft per measurement; every draft carries the given profile, media id and timestamp |
| AiAnalysis.Converted | src/services/ai-analysis.service.ts:173-192 | one measurement gives at most one draft, carrying the given profile, media id and timestamp |
| AiAnalysis.ConvertDraftsComeFromInput | src/services/ai-analysis.service.ts:172-193 | every draft is the draft of a parsable input measurement: mapped type, normalized unit, parsed value and the auto-detected note |
| AiAnalysis.ConvertKeepsEveryParsable | src/services/ai-analysis.service.ts:172-193 | every measurement whose value parses contributes its draft |
| AiAnalysis.ConvertAppend | src/services/ai-analysis.service.ts:172-193 | conversion distributes over concatenation, so input order is preserved |
| AiAnalysis.ConvertSingle | src/services/ai-analysis.service.ts:173-192 | one measurement yields its draft when its value parses, and nothing otherwise |
| AiAnalysis.ConvertKeepsParsable | src/services/ai-analysis.service.ts:172-193 | the number of drafts equals the number of parsable measurements |
| AiAnalysis.NotesNameTheSource | src/services/ai-analysis.service.ts:170-190 | without a source argument the note is "Auto-detected from photo: " followed by the raw type |
| MetricService.Matching | src/services/metric.service.ts:33-50 | the matching rows, newest first: each is a live row of the profile that passes the optional type, from and to filters, and every such row appears exactly once (multiset equality with the filtered rows) |
| MetricService.GetMetricsSound | src/services/metric.service.ts:32-60 | every returned row is a live row of the profile that passes the filters, and the rows come newest first |
| MetricService.GetMetricsComplete | src/services/metric.service.ts:33-50 | with no applied limit, every matching row is returned exactly once |
| MetricService.GetMetricsLimited | src/services/metric.service.ts:52-54 | a truthy limit n returns the n newest matching rows, or all of them when fewer match; no row left out is newer than a returned one |
| MetricService.SoftDeleted | src/services/metric.service.ts:64-67 | rows with the id get deleted_at; every other row is unchanged, and none is removed |
| MetricService.DeletedMetricIsNotListed | src/services/metric.service.ts:37-67 | after the soft delete, no listing returns the id |
| MetricService.MetricsTable.CreateMetric | src/services/metric.service.ts:21-30 | on a database error the table is unchanged and the error is returned; otherwise the row is appended and returned |
| MetricService.MetricsTable.DeleteMetric | src/services/metric.service.ts:62-70 | on a database error the table is unchanged; otherwise the table is the soft-deleted one |
| MetricService.StatsRows | src/services/metric.service.ts:90-103 | the rows the statistics read are live rows of the profile and type inside a 7, 30 or 365-day window, and every such row appears exactly once (multiset equality with the filtered rows) |
| MetricService.StatsRowsAscending | src/services/metric.service.ts:103 | those rows come oldest first |
| MetricService.GroupByDay | src/services/metric.service.ts:108-116 | the loop builds a map from each day to the values of that day, with the days in order of first appearance |
| MetricService.GroupsCoverRows | src/services/metric.service.ts:108-116 | every row's day is a group, and every group holds at least one value |
| MetricService.GroupCountsSum | src/services/metric.service.ts:108-124 | the group sizes add up to the number of rows |
| MetricService.DaysAscending | src/services/metric.service.ts:103-118 | rows in time order give strictly increasing days, and the last group is the latest row's day |
| MetricService.Min | src/services/metric.service.ts:121 | the minimum is one of the values and is at most each of them |
| MetricService.Max | src/services/metric.service.ts:122 | the maximum is one of the values and is at least each of them |
| MetricService.MeanBounds | src/services/metric.service.ts:120 | the mean of a group lies within any bounds of its values |
| MetricService.MeanTimesCount | src/services/metric.service.ts:120 | the mean times the count is the sum |
| MetricService.StatOf | src/services/metric.service.ts:118-124 | a day's figure for its own day: count is the group size (at least 1); avg is the mean; min and max are the group's smallest and largest values (members of the group, bounding every value), with min ≤ avg ≤ max |
| MetricService.DayStats | src/services/metric.service.ts:118-124 | one figure per group, in the groups' order |
| MetricService.ChangeOf | src/services/metric.service.ts:126-138 | current is the last day's average and previous the first day's, both 0 with no data; change is their difference; changePercent is 0 when previous ≤ 0, and otherwise satisfies changePercent × previous = change × 100 |
| MetricService.GetMetricStats | src/services/metric.service.ts:73-139 | one figure per day of the window, oldest first, each computed from that day's values, with the change figures on top |
| MetricService.StatsPartitionRows | src/services/metric.service.ts:107-127 | the days are distinct, the groups partition the fetched rows, none is empty, and the last group is the most recent day |
| ProfileService.CalculateAge | src/services/profile.service.ts:94-105 | the age is the number of whole years: the anniversary at that age is not after today, and the next one is |
| ProfileService.AgeOnBirthday | src/services/profile.service.ts:97-102 | on a birthday the age is the full year difference |
| ProfileService.AgeNonNegative | src/services/profile.service.ts:97-104 | a date of birth not after today gives a non-negative age |
| ProfileService.AgeMonotone | src/services/profile.service.ts:97-102 | the age never decreases as today advances |
| ProfileService.WithAges | src/services/profile.service.ts:46-49 | each profile gets its age, in the same order |
| ProfileService.LiveInCreationOrder | src/services/profile.service.ts:37-41 | every live row exactly once and nothing else, oldest first |
| ProfileService.GetProfilesSpec | src/services/profile.service.ts:36-50 | the listing is the live rows oldest first, each unchanged and with its age added |
| ProfileService.GetProfilesAreLiveRows | src/services/profile.service.ts:36-50 | every listed profile is a live row of the table |
| ProfileService.GetProfile | src/services/profile.service.ts:52-66 | succeeds exactly when one live row has the id, and returns that row with its age; otherwise gives the single-row error |
| ProfileService.Updated | src/services/profile.service.ts:74 | the fields present in the update replace the row's; every other field is kept |
| ProfileService.EmptyUpdateChangesNothing | src/services/profile.service.ts:74 | an update with no fields leaves the row as it was |
| ProfileService.UpdateWhere | src/services/profile.service.ts:72-75 | rows with the id are updated, and the others are unchanged |
| ProfileService.SoftDeleteWhere | src/services/profile.service.ts:85-88 | rows with the id get deleted_at, and the others are unchanged |
| ProfileService.DeletedProfileIsGone | src/services/profile.service.ts:36-91 | after a delete, neither the listing nor the lookup returns the id |
| ProfileService.ProfilesTable.CreateProfile | src/services/profile.service.ts:16-34 | fails with "Not authenticated" without a user and with the database error on one; otherwise appends a row owned by the user with the given fields |
| ProfileService.ProfilesTable.UpdateProfile | src/services/profile.service.ts:68-81 | with exactly one row with the id, applies the update and returns the updated row; otherwise fails and leaves the table unchanged |
| ProfileService.ProfilesTable.DeleteProfile | src/services/profile.service.ts:83-91 | on success the table is the soft-deleted one, and on failure it is unchanged |
| MediaService.FileExt | src/services/media.service.ts:19 | for a file, the text after its name's last ".", or the whole name without one; "jpg" for a blob |
| MediaService.ThumbnailNameOfUuid | src/services/media.service.ts:20-50 | the thumbnail of "uuid.ext" is "uuid_thumb.ext" |
| MediaService.Bucket | src/services/media.service.ts:24 | the bucket is "photos" exactly for photos |
| MediaService.InitialStatus | src/services/media.service.ts:86 | photos and voice notes start pending; every other kind starts not_applicable |
| MediaService.AnalysisFor | src/services/media.service.ts:99-106 | an upload sets off an analysis exactly when it starts pending |
| MediaService.SetStatus | src/services/media.service.ts:242-245 | rows with the id get the status, and the others are unchanged |
| MediaService.SetOutcome | src/services/media.service.ts:267-284 | rows with the id get the status and the error, and the others are unchanged |
| MediaService.SoftDeleteWhere | src/services/media.service.ts:184-187 | rows with the id get deleted_at, and the others are unchanged |
| MediaService.FilesOf | src/services/media.service.ts:172-175 | the file path, followed by the thumbnail path when there is one |
| MediaService.WithUrls | src/services/media.service.ts:132-153 | the row is kept; url is the signed URL of the file or ""; the thumbnail URL is the signed URL of the thumbnail path when there is a non-empty one, and absent otherwise |
| MediaService.AllWithUrls | src/services/media.service.ts:131-154 | one item with URLs per row, in order |
| MediaService.Listed | src/services/media.service.ts:115-124 | live rows of the profile and the optional kind, newest first, and every matching row exactly once (multiset equality with the filtered rows) |
| MediaService.GetMediaSpec | src/services/media.service.ts:111-157 | the listing returns live items of the profile and kind, newest first, and the items under the URLs are exactly the matching rows, each once (multiset equality) |
| MediaService.DeletedMediaIsNotListed | src/services/media.service.ts:119-187 | after the soft delete, no listing returns the id |
| MediaService.AnalysisOutcomeExclusive | src/services/media.service.ts:266-284 | completed never carries an error; failed always carries a non-empty one |
| MediaService.MediaStore.UploadMedia | src/services/media.service.ts:14-109 | the user and upload-error checks leave everything unchanged; a signed-URL error or a database error is returned as is, with no new row and with the files already uploaded left in storage; on success, one new row with the storage path, size, MIME type, timestamp default, duration for voice only, thumbnail path for photo files only, and the initial status, the file's signed URL, the thumbnail's signed URL exactly when a thumbnail was made, storage grown by the file and the uploaded thumbnail, and the analysis it sets off |
| MediaService.MediaStore.AnalyzeAndExtractMetrics | src/services/media.service.ts:234-341 | status goes to analyzing; then, with drafts inserted, to completed with no error; or, with no metric inserted, to failed with the message or "Unknown error" |
| MediaService.MediaStore.RetryAnalysis | src/services/media.service.ts:343-382 | "Media not found" and "Failed to get media URL" leave everything unchanged; non-analysable kinds fail with their own message; photos and voice notes run the same analysis as an upload, for the stored row's profile and timestamp |
| MediaService.MediaStore.DeleteMedia | src/services/media.service.ts:159-190 | the lookup must find one row; the file and its thumbnail are removed unless storage fails; the row is soft-deleted unless the database fails |
| FeedEntries.MetricEntries | src/hooks/useFeedEntries.ts:48-68 | one metric entry per metric, in order, copying id, timestamp, type, value text, unit and notes |
| FeedEntries.MediaEntries | src/hooks/useFeedEntries.ts:71-91 | one media entry per item, in order, copying id, timestamp, kind, URLs and notes |
| FeedEntries.Entries | src/hooks/useFeedEntries.ts:44-99 | the two push loops followed by the sort compute the merged, ordered feed |
| FeedEntries.FeedHasEveryItem | src/hooks/useFeedEntries.ts:44-99 | the feed has |metrics| + |media| entries, newest first, and every metric and media item has its entry |
| FeedEntries.FeedEntriesComeFromSources | src/hooks/useFeedEntries.ts:44-99 | every feed entry is the entry of a metric or of a media item |
| FeedEntries.FeedTiesKeepSourceOrder | src/hooks/useFeedEntries.ts:45-96 | entries with the same timestamp keep metrics before media, each in source order |
| FeedEntries.FeedSources.Refetch | src/hooks/useFeedEntries.ts:101-103 | with a profile, both lists are replaced by the fetched ones; without one nothing changes |
| ProfileContext.SavedId | src/contexts/ProfileContext.tsx:16 | the saved id is the storage entry under "selectedProfileId", if there is one |
| ProfileContext.Persist | src/contexts/ProfileContext.tsx:24-30 | a selection stores its id; no selection removes the key; no other key changes |
| ProfileContext.PersistIdempotent | src/contexts/ProfileContext.tsx:24-30 | running the sync effect twice is running it once |
| ProfileContext.MountStorageAsWritten | src/contexts/ProfileContext.tsx:24-30 | after the mount as written, no id is saved |
| ProfileContext.MountStorage | src/contexts/ProfileContext.tsx:15-21 | the intended mount keeps the saved id |
| ProfileContext.ProfileProvider.constructor | src/contexts/ProfileContext.tsx:12-21 | nothing is selected, and the storage is the one the intended mount leaves (`MountStorage`, with the saved id kept); the code as written clears it, see "## Findings" |
| ProfileContext.ProfileProvider.SetSelectedProfile | src/contexts/ProfileContext.tsx:12-30 | the selection is set and synced, so the saved id is the selected profile's id, or absent for no selection |
| ProfileContext.UseProfile | src/contexts/ProfileContext.tsx:39-45 | the context inside a provider; outside one, the "useProfile must be used within ProfileProvider" error |
| ProfileSwitcher.FindIndex | src/components/ProfileSwitcher.tsx:46 | the first position with the id, or -1 exactly when no profile has it |
| ProfileSwitcher.FindById | src/components/ProfileSwitcher.tsx:15 | a listed profile with the id, or none exactly when no profile has it |
| ProfileSwitcher.FindIndexOfMember | src/components/ProfileSwitcher.tsx:46 | with distinct ids, a listed profile is found at its own position |
| ProfileSwitcher.RestoreTarget | src/components/ProfileSwitcher.tsx:13-22 | a listed profile: the saved one when its id is set and listed, the first one otherwise |
| ProfileSwitcher.AutoSelect | src/components/ProfileSwitcher.tsx:11-24 | acts only with profiles and no selection, and then selects the restore target and persists it; otherwise nothing changes |
| ProfileSwitcher.CurrentIndex | src/components/ProfileSwitcher.tsx:46 | a valid position or -1; -1 with no selection; with a selection, the position `FindIndex` gives its id (the first profile with that id, or -1 when none has it) |
| ProfileSwitcher.PrevIndex | src/components/ProfileSwitcher.tsx:49 | the new position is within the list |
| ProfileSwitcher.NextIndex | src/components/ProfileSwitcher.tsx:54 | the new position is within the list |
| ProfileSwitcher.NavigationSteps | src/components/ProfileSwitcher.tsx:46-56 | previous steps back and wraps from the first to the last; next steps forward and wraps from the last to the first; with position -1, previous gives the last and next the first |
| ProfileSwitcher.NavigationRoundTrip | src/components/ProfileSwitcher.tsx:46-56 | from a valid position, next then previous returns to it, and so does previous then next |
| ProfileSwitcher.ArrowsShownIffTheyMove | src/components/ProfileSwitcher.tsx:48-58 | the arrows are shown exactly when pressing one moves the selection |
| ProfileSwitcher.HandlePrevious | src/components/ProfileSwitcher.tsx:48-51 | selects and persists the profile at the previous position |
| ProfileSwitcher.HandleNext | src/components/ProfileSwitcher.tsx:53-56 | selects and persists the profile at the next position |
| ProfileSwitcher.NextThenPreviousSelection | src/components/ProfileSwitcher.tsx:46-56 | with distinct ids, next then previous brings back the selected profile |
| ProfileSwitcher.RestoreAfterMountAsWritten | src/components/ProfileSwitcher.tsx:11-24 | after the mount as written, a saved second profile is not restored: the first one is selected |
| ProfileSwitcher.RestoreAfterMount | src/components/ProfileSwitcher.tsx:11-24 | after the intended mount, a saved id of a listed profile is restored |
| ProfileSelector.Options | src/components/ProfileSelector.tsx:56-60 | one option per profile, in list order, valued by its id |
| ProfileSelector.SelectedValue | src/components/ProfileSelector.tsx:49 | the selected id, or "" with no selection |
| ProfileSelector.OnChange | src/components/ProfileSelector.tsx:50-53 | a listed id selects and persists that profile; an unlisted id changes nothing |
| ProfileSelector.ChoosingAnOptionSelectsItsProfile | src/components/ProfileSelector.tsx:49-60 | choosing an option selects its profile, and the select then shows that option |
| ProfileForm.SavedFormRoundTrip | src/components/ProfileManager.tsx:50-73 | saving the form gives the row exactly its fields, so loading the row shows the same form; saving an unedited form changes nothing |
| ProfileManager.Manager.constructor | src/components/ProfileManager.tsx:11-27 | list mode, an empty form, no editing id, not loading, no error |
| ProfileManager.Manager.AddNew | src/components/ProfileManager.tsx:171 | moves from list to create, and changes nothing else |
| ProfileManager.Manager.ResetForm | src/components/ProfileManager.tsx:100-105 | an empty form without an editing id; nothing else changes |
| ProfileManager.Manager.HandleCreate | src/components/ProfileManager.tsx:29-48 | sends the form; success refreshes the list, resets the form and returns to the list; failure keeps everything and sets the error or "Failed to create profile"; never left loading |
| ProfileManager.Manager.HandleEdit | src/components/ProfileManager.tsx:50-59 | a listed id enters edit mode with that profile's fields; an unknown id changes nothing |
| ProfileManager.Manager.HandleUpdate | src/components/ProfileManager.tsx:61-82 | without an editing id nothing changes; otherwise sends the form for that id, with the same success and failure rules as create |
| ProfileManager.Manager.HandleDelete | src/components/ProfileManager.tsx:84-98 | nothing unless confirmed; otherwise sends the id, refreshes or sets the error, and never changes the mode or the form |
| ProfileManager.Manager.Cancel | src/components/ProfileManager.tsx:231-234 | resets the form and returns to the list |
| Settings.SettingsPage.constructor | src/pages/Settings.tsx:17-25 | the form hidden and empty, no editing id, not loading, no error |
| Settings.SettingsPage.AutoOpen | src/pages/Settings.tsx:28-32 | the create form opens when there are no profiles; nothing else changes |
| Settings.SettingsPage.ResetForm | src/pages/Settings.tsx:113-118 | an empty form without an editing id; nothing else changes |
| Settings.SettingsPage.HandleCreate | src/pages/Settings.tsx:43-62 | sends the form; success refreshes, resets and hides the form; failure keeps everything and sets the error or "Failed to create profile" |
| Settings.SettingsPage.HandleEdit | src/pages/Settings.tsx:64-73 | a listed id loads that profile, sets the editing id and hides the create form; an unknown id changes nothing |
| Settings.SettingsPage.HandleUpdate | src/pages/Settings.tsx:75-95 | without an editing id nothing changes; success resets the form, so no id is being edited any more |
| Settings.SettingsPage.HandleDelete | src/pages/Settings.tsx:97-111 | nothing unless confirmed; otherwise sends the id and refreshes, or sets the error |
| Settings.SettingsPage.Submit | src/pages/Settings.tsx:179 | updates while an id is being edited, and creates otherwise |
| Settings.SettingsPage.OpenCreateForm | src/pages/Settings.tsx:235 | shows the create form, and changes nothing else |
| Settings.SettingsPage.Cancel | src/pages/Settings.tsx:216-219 | resets the form and hides it |
| Settings.ToggleDarkMode | src/pages/Settings.tsx:279 | negates the dark-mode flag, which is then persisted |
| FeedPage.SampleEntries | src/pages/Feed.tsx:13-17 | three data entries |
| FeedPage.Feed.constructor | src/pages/Feed.tsx:13-18 | the sample entries, and not recording |
| FeedPage.Feed.HandleFileSelect | src/pages/Feed.tsx:25-39 | no file changes nothing; a file prepends exactly one photo entry named after it |
| FeedPage.Feed.HandleVoiceRecord | src/pages/Feed.tsx:41-58 | toggles recording; stopping prepends exactly one voice entry, and starting adds none |
| FeedPage.PrependedChain | src/pages/Feed.tsx:37-53 | over any run of handler calls, the original entries stay, in order, at the end of the list |
| AppTheme.InitialDarkMode | src/App.tsx:11-19 | a saved theme decides by being exactly "dark"; with none, the system preference decides |
| AppTheme.ThemeValue | src/App.tsx:21-29 | the stored value is "dark" exactly for dark mode, and otherwise "light" |
| AppTheme.ThemeRoundTrip | src/App.tsx:11-29 | reading back the persisted theme restores the same flag, whatever the system preference |
| AppTheme.Theme.Persist | src/App.tsx:21-29 | the dark class follows the flag, and the theme is stored |
| AppTheme.Theme.constructor | src/App.tsx:9-19 | dark on the first render, then the mount choice, which is persisted |
| AppTheme.Theme.SetDarkMode | src/App.tsx:9-29 | sets the flag, records a render and persists it |
| Serve.SegmentExt | serve.js:48 | "" exactly when the segment is ".." or has no "." after its first character; otherwise a "."-led end of the segment with no further ".", that is, the text from its last "." |
| Serve.LastSegment | serve.js:48 | the last segment contains no "/", ends the path (trailing slashes aside), and is the whole path or is preceded by a "/", so it is the longest such end |
| Serve.ExtName | serve.js:48 | "" or a "."-led text with no further "." that ends the last segment; "" exactly when that segment is ".." or has no "." after its first character |
| Serve.ExtNameOfFileName | serve.js:48 | for a file "dir/name.ext" (no "/" in name or ext, no "." in ext) the extension is ".ext" |
| Serve.ScriptsAreJavaScript | serve.js:14-49 | a file "dir/name.js" is served as text/javascript |
| Serve.ExtNameHasNoSlash | serve.js:48 | the extension contains no "/" |
| Serve.ExtNameIsSuffix | serve.js:48 | the extension ends the path, trailing slashes aside |
| Serve.ContentType | serve.js:14-49 | the table entry for exactly this extension, else application/octet-stream |
| Serve.Handle | serve.js:29-59 | the path resolved as the handler does; 404 when it does not exist, 500 when the read fails, and otherwise 200 with the content type and the file |
| Serve.RootResolvesToIndex | serve.js:30 | "/" resolves to dist/index.html |
| Serve.MissingPathFallsBack | serve.js:33-35 | a missing path falls back to dist/index.html |
| Serve.DirectoryServesItsIndex | serve.js:38-40 | an existing directory resolves to its own index.html |
| Serve.ExistingFileIsServed | serve.js:30-40 | an existing file resolves to itself |
| Serve.IndexIsHtml | serve.js:15-49 | every index.html has extension .html and is served as text/html |
| RailwayStart.ConfigOf | railway-start.js:9-14 | the variables as they are; the app name is "Health Dashboard" when unset or empty |
| RailwayStart.InjectedHasScript | railway-start.js:27 | the injected tag loads /config.js |
| RailwayStart.InjectSpec | railway-start.js:23-31 | a page that loads the script or has no </head> is unchanged; otherwise only the first </head> is replaced, and the page then loads the script |
| RailwayStart.InjectIdempotent | railway-start.js:23-31 | injecting twice gives the same page as injecting once |
| RailwayStart.Deployment.Startup | railway-start.js:16-31 | config.js always written, as "window.__ENV__ = " followed by the serialised config and ";"; a missing index.html fails; index.html rewritten only when the injection branch is taken |
| RailwayStart.StartupTwiceKeepsPage | railway-start.js:23-31 | after a start-up a page with </head> loads the script, and a second start-up leaves it as the first one did |
| Text.ReplaceFirst | src/services/ai-analysis.service.ts:10 | only the first occurrence is replaced: the text before it, the replacement, then the text after it |
| Text.TrimStart | src/services/ai-analysis.service.ts:137 | removes only leading white space, and the result does not start with white space |
| Text.TrimEnd | src/services/ai-analysis.service.ts:137 | removes only trailing white space, and the result does not end with white space |
| Text.AfterLast | src/services/media.service.ts:19 | the text after the last separator, or all of it when there is none |
| Sequences.SortDesc | src/hooks/useFeedEntries.ts:94-96 | sorted by descending key, with the same elements |
| Sequences.SortDescStable | src/hooks/useFeedEntries.ts:94-96 | entries with equal keys keep their input order |

## Left out

- Network calls are left out. `analyzeImage`/`analyzeAudio` (`fetch`, `JSON.parse`, the response-shape checks) become the `detected` parameter of the analysis, which is the measurements or an error message.
- The Supabase client, auth and storage are left out. Storage is a set of (bucket, path) pairs, and URL signing is a function from bucket and path to an optional URL. The writes whose errors the code checks take an outcome parameter; the calls below do not.
- Read errors are not modelled: the rows come back as read. The error checks after the listing reads are left out, at src/services/metric.service.ts:57 and :105, src/services/profile.service.ts:43 and src/services/media.service.ts:128.
- MediaService.MediaStore.AnalyzeAndExtractMetrics: the status updates to analyzing, completed and failed (src/services/media.service.ts:242-245, 267-284, 297-300, 322-339) are always applied. The code ignores their errors, and a failed update would leave the old status in place; the model does not capture that.
- MetricService.GetMetrics: the limit is a `nat`, so a negative `limit` (which the code passes on to `.limit(n)` because it is truthy) cannot be expressed.
- Text.LowerChar, Text.UpperChar and Text.Lower map case on ASCII letters only. JavaScript's `toLowerCase`/`toUpperCase` also map non-ASCII letters ("ÄRGER" becomes "ärger"). So AiAnalysis.CamelCase, AiAnalysis.CapitalizeAll and AiAnalysis.UnitKey differ from the code on non-ASCII input, which keeps its case in the model.
- `createThumbnail` and `getAudioDuration` are left out: they need canvas and audio APIs and floating-point scaling. Their results are the parameters `thumbnail` and `audioDuration`.
- Floating point is not modelled. Values, averages and percentages are exact reals, and `parseFloat` is an abstract partial function.
- MetricService.StatsRows: the window starts `PeriodDays(period)` whole 24-hour days before `now`. The code steps back local calendar days with `setDate(getDate() - days)` (src/services/metric.service.ts:93-94), which differs by the daylight-saving offset when a transition falls inside the window. For example, in Europe/Berlin with now = 2024-04-02T10:00Z and '1W', the code starts at 2024-03-26T11:00Z and the model at 10:00Z, so a row at 10:30Z is read only by the model.
- Rows with equal sort keys are not modelled as the database returns them. `order()` on timestamp or created_at leaves their order unspecified, and the model returns them in table order (the stable sort). This concerns MetricService.Matching, MetricService.GetMetrics (with GetMetricsSound, GetMetricsComplete and GetMetricsLimited), MetricService.StatsRows, MediaService.Listed and ProfileService.LiveInCreationOrder. Their multiset and sortedness clauses would hold for any order of ties. The exact sequence is a modelling choice, and so is which of several tied rows a limit keeps.
- Time formatting is not modelled. `toISOString` and locale date and time formatting are out. Timestamps are integers, and the UTC day is `timestamp / 86400000`.
- `calculateAge` works on (year, month, day) values. Parsing the date of birth is a parameter, and the UTC-versus-local discrepancy of `new Date` is not modelled.
- Promises and concurrency are not modelled.
  - Each operation runs to completion in order.
  - The fire-and-forget analysis after an upload is returned as `analysis`, for the caller to run with `AnalyzeAndExtractMetrics`.
  - Partial failure inside `Promise.all` of `createMetric` is not modelled: the metric inserts succeed or fail together.
  - Duplicate metrics from repeated retries are not modelled.
  - Stale-closure updates in the demo feed page are not modelled.
- Subscription hooks are not modelled. `useMetrics`, `useMedia` and `useProfiles` are replaced by the lists they deliver, and `FeedSources.Refetch` only replaces the lists.
- Rendering is not modelled: the JSX markup and the body-scroll effect of the profile manager.
- `path.join` is not modelled as written. Normalisation of "." and ".." segments and the query strings of request URLs are out. The file system is a set of files and a set of directories, and `readFileSync` is a parameter.
- The start-up script's `spawn` of the static server and its process-exit handling are left out, because they are process control.
- `JSON.stringify` of the config is a parameter, so the model does not fix its output format.
- The ProfileSelector's auto-select effect is the same code as the switcher's. It is modelled once, as `ProfileSwitcher.AutoSelect`.
- ProfileManager: its form submit, which picks create or update by mode, is not a separate member. `HandleUpdate` already does nothing without an editing id.
- MediaService.MediaStore.statusLog: the intermediate `analyzing` state is recorded in a ghost log, not as a state that other calls can observe.
- MediaService.MediaStore.RetryAnalysis: it uses the same `detected` and insert outcomes as a first analysis. The shorter signed-URL lifetime (one hour rather than one year) is not recorded.
- The client setup in `src/lib/supabase.ts`, the auth pages and the audio recorder hook are not part of this model.

## Findings

| source | as written | input that shows it | evidently intended | confidence | as-written member | corrected member |
|---|---|---|---|---|---|---|
| src/contexts/ProfileContext.tsx:24-30 | The sync effect also runs on mount, while nothing is selected yet, so it removes "selectedProfileId" before the profile list arrives. The restore branch of the auto-select (src/components/ProfileSwitcher.tsx:13-16) then never sees a saved id. | The storage holds selectedProfileId = "p2", and the profiles [p1, p2] arrive after the mount. p1 is selected. | The saved profile p2 is restored, as the mount effect's comments at lines 13 and 17 say. | not executed | ProfileContext.MountStorageAsWritten, ProfileSwitcher.RestoreAfterMountAsWritten | ProfileContext.MountStorage, ProfileSwitcher.RestoreAfterMount |
