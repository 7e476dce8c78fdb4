# A verified model of the content portal's client logic

The portal is a React front end over a hosted database. Contributors upload
books, audio and video. Admins moderate the uploads, which are pending,
approved or rejected. Visitors browse the approved items, keep favourites
and playlists, and ask questions that staff answer, an admin's answer being
published at once and a contributor's waiting for approval.

Every handler in the front end ends in a remote call. This model keeps
everything around those calls: payloads, guards, local list updates,
validation, parsing, filters, tallies and role gates. Each remote call is
reduced to its outcome, passed in as a parameter (`ok: bool`, or a small
outcome datatype).

How the model is laid out:

- One Dafny module per component or hook.
- Components whose handlers change their own state step by step are
  `class`es. Their fields are the component's `useState` values.
- A handler that sets a busy flag before its remote call is split at the
  `await` into a `Begin…` method and a `Finish…` method. `Begin…` returns
  the request it would send. `Finish…` takes the request's outcome.
- Pure code is functions with lemmas about them: schemas, predicates,
  joins, counts and the URL parser.
- Shared modules:
  - `Common`: roles, statuses, types, `Option` and `Result`.
  - `Text`: JavaScript's `trim`, `split`, `join`, `slice`, `includes` and
    ASCII `toLowerCase` on `seq<char>`.
  - `Lists`: filter, count, sub-sequence and de-duplication.
  - `Order`: the default string sort and a stable sort by key.
  - `Tags`: the two tag parsers.
  - `ContentRecords`: the `content` table. It holds the update payloads,
    the database's application of them and the three-state moderation
    machine with its invariant, "an approved row has a publication time".

## Model

| member | source | states |
|---|---|---|
| ContentRecords.Apply | src/components/contributor/ContentEditDialog.tsx:96-107 | an update never changes a row's id, contributor, type or files |
| ContentRecords.ApproveEffect | src/components/admin/PendingContentList.tsx:78-84 | approving writes status approved and a publication time, changes nothing else, and leaves the row consistent |
| ContentRecords.RejectEffect | src/components/admin/PendingContentList.tsx:109-115 | rejecting writes status rejected and the trimmed notes (null when blank); the publication time and all other columns stay; the row stays consistent |
| ContentRecords.StatusChangeEffect | src/components/admin/AllContentList.tsx:84-92 | any status can be set; the publication time is replaced iff the new status is approved and never cleared; notes are kept; consistency is kept |
| ContentRecords.Perform | src/components/admin/AllContentList.tsx:111-114 | a delete removes exactly that key from the table, an update keeps the keys; no other row changes |
| ContentRecords.AdminRequestsKeepConsistent | src/components/admin/PendingContentList.tsx:78-115 | approve, reject, set-status and delete requests all keep every row of a consistent table consistent |
| ContentRecords.WithoutIdEffect | src/components/admin/PendingContentList.tsx:89 | dropping an id keeps every other row, in order, and no row with that id; an absent id changes nothing; with distinct ids exactly one row goes |
| ContentRecords.RemoveOne | src/components/admin/AllContentList.tsx:118 | with distinct ids, filtering out a present id shortens the list by exactly one |
| ContentRecords.WithStatusEffect | src/components/admin/AllContentList.tsx:96-98 | a local status change keeps length and order, sets the status of the rows with that id and changes nothing else |
| PendingContent.PendingContentList.constructor | src/components/admin/PendingContentList.tsx:46-51 | the fetched queue with no action running, no selection, empty notes and the dialog closed |
| PendingContent.PendingContentList.BeginApprove | src/components/admin/PendingContentList.tsx:75-84 | the item is marked busy and the approval for its id is sent |
| PendingContent.PendingContentList.FinishApprove | src/components/admin/PendingContentList.tsx:86-95 | on success exactly that id leaves the queue, on failure the queue is unchanged; the busy mark is cleared |
| PendingContent.PendingContentList.OpenRejectDialog | src/components/admin/PendingContentList.tsx:98-102 | the item is selected, the notes reset to empty and the dialog opens |
| PendingContent.PendingContentList.BeginReject | src/components/admin/PendingContentList.tsx:104-115 | without a selection nothing is sent and nothing changes; otherwise the selected id is busy and its rejection with the typed notes is sent |
| PendingContent.PendingContentList.FinishReject | src/components/admin/PendingContentList.tsx:117-128 | on success the item leaves the queue, the dialog closes and the selection clears; on failure all three are kept; the busy mark is cleared |
| AllContent.EveryStatusOffered | src/components/admin/AllContentList.tsx:234-238 | each of the three statuses is offered for every item |
| AllContent.FilteredSpec | src/components/admin/AllContentList.tsx:128-135 | the filtered list is an ordered sub-sequence, and a row is in it iff it passes the search, status and type tests |
| AllContent.NeutralFilterKeepsAll | src/components/admin/AllContentList.tsx:129-133 | an empty search with status and type on 'all' shows the whole list |
| AllContent.AllContentList.constructor | src/components/admin/AllContentList.tsx:53-58 | the fetched list, no action running, empty search, both filters 'all' |
| AllContent.AllContentList.BeginStatusChange | src/components/admin/AllContentList.tsx:81-92 | the id is busy and the status-change payload is sent for it |
| AllContent.AllContentList.FinishStatusChange | src/components/admin/AllContentList.tsx:94-105 | on success only that id's status changes locally, on failure nothing; the busy mark is cleared |
| AllContent.AllContentList.BeginDelete | src/components/admin/AllContentList.tsx:108-114 | the id is busy and the delete for it is sent |
| AllContent.AllContentList.FinishDelete | src/components/admin/AllContentList.tsx:116-125 | on success the rows with that id leave, on failure the list is unchanged; the busy mark is cleared |
| MyContent.VisibilityAfterModeration | src/components/contributor/MyContentList.tsx:135-144 | approved and rejected items have no delete control; a rejection shows feedback iff its notes are not blank; an edit hides the feedback, and a rejected item that is edited can be deleted again |
| MyContent.MyContentList.constructor | src/components/contributor/MyContentList.tsx:38-40 | an empty list and no delete running |
| MyContent.MyContentList.UserChanged | src/components/contributor/MyContentList.tsx:42-46 | content is fetched, for that user, iff a user is signed in |
| MyContent.MyContentList.Fetched | src/components/contributor/MyContentList.tsx:48-64 | a successful fetch replaces the list, a failed one keeps it |
| MyContent.MyContentList.BeginDelete | src/components/contributor/MyContentList.tsx:66-72 | `deletingId` is the id and the delete is sent |
| MyContent.MyContentList.FinishDelete | src/components/contributor/MyContentList.tsx:74-83 | on success only that id leaves, on failure the list is unchanged; `deletingId` is cleared |
| ContentEdit.ValidateSpec | src/components/contributor/ContentEditDialog.tsx:42-50 | valid iff the trimmed title has 1..200 UTF-16 units, as JavaScript counts length, the trimmed description at most 2000 and the trimmed author at most 200; the output is the trimmed texts and the capped tags; each error is exactly the first failing field |
| ContentEdit.ResubmitStatus | src/components/contributor/ContentEditDialog.tsx:94 | rejected becomes pending; any other status is kept |
| ContentEdit.EditEffect | src/components/contributor/ContentEditDialog.tsx:94-107 | the new status is never rejected; notes are cleared exactly when the new status is pending and kept otherwise; empty description or author is stored as null; type and publication time are untouched; consistency is kept |
| ContentEdit.PrefillTextsTrimmed | src/components/contributor/ContentEditDialog.tsx:60-68 | the prefilled texts of a row the dialog could have stored are already trimmed |
| ContentEdit.PrefillTagsParse | src/components/contributor/ContentEditDialog.tsx:66 | the prefilled tag text of such a row parses back to its own tags |
| ContentEdit.PrefillValidates | src/components/contributor/ContentEditDialog.tsx:60-87 | opening the dialog on such a row gives a valid form whose output is the row's own texts and tags |
| ContentEdit.PrefillSubmitUnchanged | src/components/contributor/ContentEditDialog.tsx:60-107 | saving such a row without typing writes it back unchanged, apart from the resubmission rule for status and notes |
| ContentEdit.EditDialog.constructor | src/components/contributor/ContentEditDialog.tsx:53-58 | empty fields with language English, not submitting |
| ContentEdit.EditDialog.Prefill | src/components/contributor/ContentEditDialog.tsx:60-68 | with content the fields become its prefill, without content they are kept |
| ContentEdit.EditDialog.BeginSubmit | src/components/contributor/ContentEditDialog.tsx:70-107 | an empty title is stopped by the required input before the handler runs; no content: nothing happens; an invalid form: the first error and no request; a valid form: submitting, and the edit payload is sent for the content's id |
| ContentEdit.EditDialog.FinishSubmit | src/components/contributor/ContentEditDialog.tsx:109-123 | on success `onSuccess` fires once and the dialog closes; on failure it stays open; submitting ends either way |
| Tags.ParsedTagsWellFormed | src/components/contributor/ContentUploadForm.tsx:105 | every upload tag is non-empty, trimmed and free of commas |
| Tags.CappedTagsBounded | src/components/contributor/ContentEditDialog.tsx:47-49 | the edit parse yields at most 20 tags, each non-empty, at most 50 characters and comma-free |
| Tags.CapCommutesWithDrop | src/components/contributor/ContentEditDialog.tsx:48 | cutting to a positive length and dropping empties can be done in either order |
| Tags.CappedIsCutUpload | src/components/contributor/ContentEditDialog.tsx:47-49 | the edit parse is the upload parse with each tag cut to 50 characters and the list cut to 20 |
| Tags.SplitTagsText | src/components/contributor/ContentEditDialog.tsx:66 | splitting `join(', ')` of trimmed, comma-free tags and trimming the parts gives the tags back |
| Tags.TagsRoundTrip | src/components/contributor/ContentEditDialog.tsx:47-49 | for at most 20 well-formed tags of at most 50 characters, parsing `join(', ')` gives back the same tags, with either parser |
| ContentUpload.AcceptedFileTypesListsExtensions | src/components/contributor/ContentUploadForm.tsx:29-36 | split on commas, the accepted-types string is ".ext" for each fixed extension of the type, in order (book pdf, epub, doc, docx; audio mp3, wav, ogg, m4a; video mp4, webm, mov) |
| ContentUpload.AcceptedExtensionsDisjoint | src/components/contributor/ContentUploadForm.tsx:29-36 | no extension is accepted for two different types |
| ContentUpload.Decimal | src/components/contributor/ContentUploadForm.tsx:64 | the decimal rendering of the time stamp is digits only |
| ContentUpload.ContentPathShape | src/components/contributor/ContentUploadForm.tsx:63-64 | the path is the folders user id and type, then `<stamp>.<ext>`; the stored object keeps the file's extension, which is the whole name when it has no dot |
| ContentUpload.CoverPathShape | src/components/contributor/ContentUploadForm.tsx:78-82 | the cover path is the folders user id and `covers`, then `<stamp>.<ext>`, keeping the cover's extension |
| ContentUpload.InsertedStartsPending | src/components/contributor/ContentUploadForm.tsx:96-110 | the insert sends no status, notes or publication time; taking the table's defaults for them (pending, null, null) as given, the stored row is consistent and keeps the id, type and contributor it was inserted with |
| ContentUpload.PlannedCalls | src/components/contributor/ContentUploadForm.tsx:63-110 | the file is uploaded first, then the cover if chosen, then the row inserted, each only after the one before succeeded; the row carries the user, the typed texts, the upload tag parse, the file's public URL and a cover URL iff a cover was chosen |
| ContentUpload.UploadForm.constructor | src/components/contributor/ContentUploadForm.tsx:19-27 | the reset fields with type book, not submitting |
| ContentUpload.UploadForm.Reset | src/components/contributor/ContentUploadForm.tsx:115-121 | texts and files are cleared, language becomes English, the type is kept |
| ContentUpload.UploadForm.Submit | src/components/contributor/ContentUploadForm.tsx:46-129 | an empty title is stopped by the required input (line 173) before the handler runs; without a user or a file nothing is called; otherwise the planned calls are made; it succeeds iff every call does; success resets the form and failure keeps every field; submitting ends false |
| QaRecords.AnswerModerationEffect | src/components/admin/PendingAnswersList.tsx:64-96 | approving stamps the answer approved with the time; rejecting writes only the status and keeps the approval time |
| Answering.AnswerRowSpec | src/components/qa/AnswerForm.tsx:30-36 | the inserted text is the trimmed input; an admin's answer is approved with a time, any other role's is pending with none |
| Answering.AnswerForm.constructor | src/components/qa/AnswerForm.tsx:17-18 | an empty answer box, not submitting |
| Answering.AnswerForm.BeginSubmit | src/components/qa/AnswerForm.tsx:24-36 | no user or a blank answer inserts nothing; otherwise submitting, and the row for the trimmed text and the role is inserted |
| Answering.AnswerForm.FinishSubmit | src/components/qa/AnswerForm.tsx:46-57 | on success the box empties and the callback fires once; on failure the text is kept; submitting ends |
| PendingAnswers.QuestionQuerySpec | src/components/admin/PendingAnswersList.tsx:37-42 | no query iff there are no pending answers; otherwise the ids asked for are distinct and are exactly the answered questions |
| PendingAnswers.ByIdSpec | src/components/admin/PendingAnswersList.tsx:44 | the map has a key for exactly the ids among the rows, each holding the last row with that id |
| PendingAnswers.FetchedQueueSpec | src/components/admin/PendingAnswersList.tsx:37-52 | the queue has the answers in fetched order, each with a question of its own question id, or none when no such question was fetched |
| PendingAnswers.EmptyQueue | src/components/admin/PendingAnswersList.tsx:50-52 | no pending answers gives an empty queue and no question query |
| PendingAnswers.PendingAnswersList.constructor | src/components/admin/PendingAnswersList.tsx:22-23 | an empty queue, loading |
| PendingAnswers.PendingAnswersList.BeginFetch | src/components/admin/PendingAnswersList.tsx:26 | every fetch of the queue starts by showing the spinner |
| PendingAnswers.PendingAnswersList.FinishFetch | src/components/admin/PendingAnswersList.tsx:25-58 | a successful fetch sets the annotated queue, a failed one keeps it; loading ends |
| PendingAnswers.PendingAnswersList.Approve | src/components/admin/PendingAnswersList.tsx:64-79 | the answer is set approved with the time; the queue is fetched again iff that succeeded, and that fetch shows the spinner |
| PendingAnswers.PendingAnswersList.Reject | src/components/admin/PendingAnswersList.tsx:81-96 | only the status rejected is written; the queue is fetched again iff that succeeded, and that fetch shows the spinner |
| Questions.GroupAnswers | src/components/qa/QuestionList.tsx:80-86 | the loop builds the grouping: a key for each question with an answer and no other, each holding that question's answers in fetched order |
| Questions.GroupingSpec | src/components/qa/QuestionList.tsx:80-86 | every answer sits under its own question id; each group is an ordered sub-sequence of the fetched answers, all of that question |
| Questions.FreezeRule | src/components/qa/QuestionList.tsx:124-127 | a question can be edited or deleted iff the signed-in user asked it and no fetched answer belongs to it |
| Questions.FilteredQuestionsSpec | src/components/qa/QuestionList.tsx:130-132 | the filter is an ordered sub-sequence holding exactly the questions that contain the query ignoring case; an empty query keeps all |
| Questions.BadgeLifecycle | src/components/qa/QuestionList.tsx:214-218 | an answer reads "Answer" from the moment it is posted iff an admin posted it; an approval always makes it "Answer"; a rejected answer is still listed, labelled "Pending" |
| Questions.AnswerFormGates | src/components/qa/QuestionList.tsx:230-232 | the answer box is shown iff the role is admin or contributor, the same gate the box applies itself |
| Questions.QuestionList.constructor | src/components/qa/QuestionList.tsx:45-50 | no questions, no groups, no deletion target, empty search |
| Questions.QuestionList.Fetched | src/components/qa/QuestionList.tsx:55-94 | successful questions replace the list; the groups are rebuilt only when there are questions and the answers fetch succeeded, and kept otherwise |
| Questions.QuestionList.AskDelete | src/components/qa/QuestionList.tsx:198 | the question becomes the deletion target |
| Questions.QuestionList.BeginDelete | src/components/qa/QuestionList.tsx:96-103 | the delete is sent iff the target is truthy, and then for that target; a null or empty target sends nothing |
| Questions.QuestionList.FinishDelete | src/components/qa/QuestionList.tsx:105-121 | the data is fetched again iff the delete succeeded; the target is cleared either way |
| Asking.QuestionRowSpec | src/components/qa/QuestionForm.tsx:29-33 | the row carries the asker, the section's type and the trimmed, non-blank text |
| Asking.QuestionForm.constructor | src/components/qa/QuestionForm.tsx:20-21 | an empty question for the section's type, not submitting |
| Asking.QuestionForm.BeginSubmit | src/components/qa/QuestionForm.tsx:23-33 | no user or a blank question inserts nothing; otherwise submitting, and the row is inserted |
| Asking.QuestionForm.FinishSubmit | src/components/qa/QuestionForm.tsx:41-52 | on success the text clears and the callback fires once; on failure the text is kept; submitting ends |
| QuestionEdit.QuestionEditDialog.constructor | src/components/qa/QuestionEditDialog.tsx:30-31 | the dialog opens with the current text, not submitting |
| QuestionEdit.QuestionEditDialog.BeginSubmit | src/components/qa/QuestionEditDialog.tsx:33-42 | a blank text sends nothing and Save is disabled; otherwise submitting, and the update writes only the trimmed text for that id |
| QuestionEdit.QuestionEditDialog.FinishSubmit | src/components/qa/QuestionEditDialog.tsx:50-61 | on success the refetch fires once and the dialog closes; on failure it stays open; submitting ends |
| Browse.AllTags | src/components/content/ContentBrowser.tsx:106-112 | the tag index is strictly ascending, so free of repeats, and holds exactly the tags of the items |
| Browse.FilteredContentSpec | src/components/content/ContentBrowser.tsx:115-128 | the filtered list is an ordered sub-sequence, and an item is in it iff it passes the search, language and tag tests |
| Browse.InactiveFiltersShowAll | src/components/content/ContentBrowser.tsx:117-124 | with an empty search, language 'All' and no tag every item is shown, in order |
| Browse.ActionSpec | src/components/content/ContentBrowser.tsx:130-141 | the signed URL is opened when present, else the stored one, else nothing; a book records a download and audio or video a play |
| Browse.ContentBrowser.constructor | src/components/content/ContentBrowser.tsx:55-61 | no items, no filters, language 'All', no dialog |
| Browse.ContentBrowser.Fetched | src/components/content/ContentBrowser.tsx:70-103 | a successful fetch replaces the list, a failed one keeps it |
| Browse.ContentBrowser.AddToPlaylist | src/components/content/ContentBrowser.tsx:143-149 | without a user nothing changes; otherwise the item is selected and the playlist dialog opens |
| Browse.ContentBrowser.ClearFilters | src/components/content/ContentBrowser.tsx:151-157 | afterwards no filter is active and every item is shown |
| Favorites.ToggledSpec | src/hooks/useFavorites.ts:44-67 | a toggle removes a member and adds a non-member, and no other id changes |
| Favorites.ToggleTwice | src/hooks/useFavorites.ts:55-67 | toggling the same id twice restores the set |
| Favorites.FavoriteSet.constructor | src/hooks/useFavorites.ts:8-9 | an empty set, loading |
| Favorites.FavoriteSet.UserChanged | src/hooks/useFavorites.ts:11-18 | a signed-in user's favourites are fetched; signing out yields the empty set and ends loading |
| Favorites.FavoriteSet.Fetched | src/hooks/useFavorites.ts:20-36 | a successful fetch sets exactly the fetched ids, a failed one keeps the set; loading ends |
| Favorites.FavoriteSet.Toggle | src/hooks/useFavorites.ts:38-74 | without a user nothing is sent and nothing changes; otherwise a delete for a member or an insert for a non-member is sent; success toggles the id, failure keeps the set |
| Playlists.RemoveUndoesAdd | src/hooks/usePlaylists.ts:116-138 | removing after adding restores the list; adding after removing does too when the playlist had an item; removing from an empty playlist keeps it at 0; neither changes the playlists, their order or names |
| Playlists.WithoutPlaylistSpec | src/hooks/usePlaylists.ts:94 | deleting keeps, in order, exactly the playlists with another id |
| Playlists.PlaylistStore.constructor | src/hooks/usePlaylists.ts:16-17 | no playlists, loading |
| Playlists.PlaylistStore.UserChanged | src/hooks/usePlaylists.ts:19-26 | a signed-in user's playlists are fetched; signing out empties the list and ends loading |
| Playlists.PlaylistStore.Fetched | src/hooks/usePlaylists.ts:28-58 | a successful fetch sets the rows, a failed one keeps the list; loading ends |
| Playlists.PlaylistStore.Create | src/hooks/usePlaylists.ts:60-83 | without a user nothing is sent and null is returned; otherwise the insert is sent, and a created playlist is put first with 0 items and returned; a failure returns null and keeps the list |
| Playlists.PlaylistStore.Delete | src/hooks/usePlaylists.ts:85-100 | on success exactly that playlist leaves; on failure the list is unchanged |
| Playlists.PlaylistStore.Add | src/hooks/usePlaylists.ts:102-124 | a new item raises that playlist's count; a duplicate (code 23505) changes nothing and reports "already in playlist"; another failure changes nothing and reports an error |
| Playlists.PlaylistStore.Remove | src/hooks/usePlaylists.ts:126-144 | on success that playlist's count drops, never below 0; on failure nothing changes |
| LibraryPage.Library.constructor | src/pages/Library.tsx:52-57 | no favourite content, no selection, no playlist content, an empty name, the create dialog closed |
| LibraryPage.StoredUrlAsBrowserFallback | src/pages/Library.tsx:139-143 | the library opens an item iff the content browser would for the same item without a signed URL, and at the same stored address |
| LibraryPage.Library.FavoritesChanged | src/pages/Library.tsx:65-71 | the favourite content is fetched iff the set is non-empty; an empty set empties it without a fetch |
| LibraryPage.Library.SelectPlaylist | src/pages/Library.tsx:121-124 | the playlist is selected and its content fetched |
| LibraryPage.Library.CreatePlaylist | src/pages/Library.tsx:126-131 | a blank name does nothing; otherwise the trimmed, non-empty name is created, the name clears and the dialog closes |
| LibraryPage.Library.RemoveFromPlaylist | src/pages/Library.tsx:133-137 | without a selection nothing happens; otherwise the removal is sent and only that content id leaves the shown list |
| LibraryPage.Library.DeletePlaylist | src/pages/Library.tsx:327-333 | the delete is sent; deleting the selected playlist clears the selection and its content, deleting another keeps both |
| PlaylistPicker.AddToPlaylistDialog.constructor | src/components/content/AddToPlaylistDialog.tsx:21-24 | the dialog opens for one item with an empty name, not creating |
| PlaylistPicker.AddToPlaylistDialog.AddToExisting | src/components/content/AddToPlaylistDialog.tsx:26-29 | the item is added to the chosen playlist and the dialog always closes |
| PlaylistPicker.AddToPlaylistDialog.BeginCreate | src/components/content/AddToPlaylistDialog.tsx:31-35 | a blank name does nothing; otherwise creating, with the trimmed, non-empty name |
| PlaylistPicker.AddToPlaylistDialog.FinishCreate | src/components/content/AddToPlaylistDialog.tsx:36-41 | the item is added, the name cleared and the dialog closed only if a playlist was created; else the dialog stays open with the name; creating ends on every path |
| Storage.FirstMatch | src/lib/storage.ts:50 | a found position is at or after the start and the pattern matches there |
| Storage.FirstMatchSpec | src/lib/storage.ts:50 | the position found is the leftmost match, and none is found iff there is no match |
| Storage.CaptureSpec | src/lib/storage.ts:50-53 | a capture is the non-empty rest of the pathname after the leftmost marker followed by one or more characters, free of line terminators; there is none iff no position matches |
| Storage.PublicMatchIsFilesMatch | src/lib/storage.ts:56 | a match of `/object/public/content-files/` is a match of `/content-files/` 14 characters later |
| Storage.FallbackNeverNeeded | src/lib/storage.ts:50-59 | whenever the fallback pattern matches, the first one already has, so the fallback never changes the result |
| Storage.ExtractPathSpec | src/lib/storage.ts:39-65 | the empty string gives null; a value not starting with "http" is returned as it is; a URL gives the decoded capture of its pathname, and null when the URL does not parse, nothing matches or decoding fails |
| Storage.SignedUrlSpec | src/lib/storage.ts:9-34 | a null or empty path gives null without a storage call; a plain path is signed as it is; a storage error gives null |
| Storage.SignedUrlsSpec | src/lib/storage.ts:70-75 | each path is signed on its own: a null or empty path gives null in its place, any URL is the storage's answer for that path, and signing two lists in turn equals signing them joined |
| Analytics.LookbackDays | src/components/admin/AdminAnalytics.tsx:35-47 | there is no lookback iff the range is 'all'; otherwise it is 7, 30 or 90 days |
| Analytics.DateFilterSpec | src/components/admin/AdminAnalytics.tsx:35-58 | range 'all' keeps every row; another range keeps exactly the rows tracked at most that many days before now; the result is an ordered sub-sequence |
| Analytics.ActionCountsBounded | src/components/admin/AdminAnalytics.tsx:61-63 | views + downloads + plays is at most the number of rows, and equal when every row has one of those actions |
| Analytics.TypeCountsTotal | src/components/admin/AdminAnalytics.tsx:71-74 | book + audio + video counts equal the total content |
| Analytics.TallyAppend | src/components/admin/AdminAnalytics.tsx:95-96 | one more row raises the tally of its own id by one and leaves the others |
| Analytics.ViewCounts | src/components/admin/AdminAnalytics.tsx:94-97 | the loop's map holds, for exactly the ids tracked, the number of rows of that id, whatever their action type |
| Analytics.EntryKeysAreTallied | src/components/admin/AdminAnalytics.tsx:99 | an id is an entry of the tally iff some row has it |
| Analytics.ViewCountsSumToRows | src/components/admin/AdminAnalytics.tsx:94-97 | the tallies of the entries add up to the number of rows, each entry holding its own tally |
| Analytics.SortedEntriesSpec | src/components/admin/AdminAnalytics.tsx:99-100 | the sorted entries are the tracked ids, each once, in non-increasing tally order |
| Analytics.LeftOutNotLarger | src/components/admin/AdminAnalytics.tsx:99-102 | an entry left out of the top five has a tally at most that of every chosen one |
| Analytics.TopIdsSpec | src/components/admin/AdminAnalytics.tsx:99-102 | the top ids number min(5, entries), are distinct, carry their tallies, are in non-increasing order, and no left-out entry has a larger tally than a chosen one |
| Analytics.TopContentSpec | src/components/admin/AdminAnalytics.tsx:104-117 | the top content is a reordering of the fetched rows by non-increasing views, each equal to its tally; it is empty without top ids or fetched rows |
| Analytics.AnalyticsPanel.constructor | src/components/admin/AdminAnalytics.tsx:27-29 | no summary, loading, range 30 days |
| Analytics.AnalyticsPanel.SelectRange | src/components/admin/AdminAnalytics.tsx:29-52 | the range is stored, loading starts and the range's date filter is used |
| Analytics.AnalyticsPanel.Fetched | src/components/admin/AdminAnalytics.tsx:55-135 | the tally and the top ids are computed as above; the summary holds the counts, an empty activity series and the top content; loading ends |
| ContributorOverview.ApprovedIdsSpec | src/components/contributor/ContributorOverview.tsx:35 | one approved id per approved row, and an id is there iff an approved row has it |
| ContributorOverview.StatsSpec | src/components/contributor/ContributorOverview.tsx:15-48 | the status counts and the type counts each add up to the total; no approved rows gives 0 views, otherwise the count; no user id or a failed fetch gives null, and only those do |
| ContributorOverview.ApprovalRateSpec | src/components/contributor/ContributorOverview.tsx:139-141 | 0 for no content; otherwise the nearest whole percentage, a half rounded up; at most 100 when approved ≤ total, 100 when all are approved, 0 when none |
| UserManagement.FindProfile | src/components/admin/UserManagement.tsx:58 | a profile found is in the list and has the user's id |
| UserManagement.FindProfileSpec | src/components/admin/UserManagement.tsx:58 | the profile found is the first with that id, and none is found iff no profile has it |
| UserManagement.JoinSpec | src/components/admin/UserManagement.tsx:56-59 | the join keeps the role rows' number, order and columns, each with its first matching profile or none, and none at all when the profiles are null |
| UserManagement.DisplayName | src/components/admin/UserManagement.tsx:136 | the profile's full name when set, otherwise a non-empty placeholder |
| UserManagement.EveryRoleOffered | src/components/admin/UserManagement.tsx:163-165 | each of the three roles is offered for every user, with no guard against demoting an admin |
| UserManagement.WithRoleSpec | src/components/admin/UserManagement.tsx:80-82 | a role change keeps length and order, sets the role of that user's entries, changes nothing else, and is idempotent |
| UserManagement.UserList.constructor | src/components/admin/UserManagement.tsx:29-31 | no users, loading, nobody busy |
| UserManagement.UserList.Fetched | src/components/admin/UserManagement.tsx:37-68 | the list becomes the join when neither query failed and is kept otherwise; loading ends |
| UserManagement.UserList.BeginRoleChange | src/components/admin/UserManagement.tsx:70-78 | the user is busy and the update with the new role is sent |
| UserManagement.UserList.FinishRoleChange | src/components/admin/UserManagement.tsx:80-89 | on success only that user's role changes, on failure nothing; nobody is busy afterwards |
| Dashboard.TabIdInjective | src/pages/Dashboard.tsx:60-93 | no two tabs share a value |
| Dashboard.TabsFor | src/pages/Dashboard.tsx:60-93 | no tab appears twice |
| Dashboard.AccessRule | src/pages/Dashboard.tsx:19-37 | while loading: a spinner and no redirect; once loaded: the dashboard iff a contributor or admin is signed in; a redirect to login iff nothing is rendered |
| Dashboard.TabsRule | src/pages/Dashboard.tsx:58-130 | the default tab is one of the tabs: analytics for an admin, upload for a contributor; a contributor gets exactly upload and my-content, an admin every tab |
| DashboardMenu.GroupsRule | src/components/dashboard/DashboardSidebar.tsx:71-108 | the contributor group is always first, the admin group is shown iff the role is admin; the label is "Admin" iff the role is admin, otherwise "Contributor" |
| DashboardMenu.IdsDistinct | src/components/dashboard/DashboardSidebar.tsx:36-47 | the ids are distinct across both lists |
| DashboardMenu.ItemsAreTabs | src/components/dashboard/DashboardSidebar.tsx:36-47 | an admin's menu selects exactly the admin's dashboard tabs and the contributor group exactly the contributor's |
| DashboardMenu.ClickActivatesOne | src/components/dashboard/DashboardSidebar.tsx:94-120 | clicking an item reports its id, which makes it active and no other visible item |
| Common.RowsOf | src/components/admin/AdminAnalytics.tsx:71 | the rows of a query, none for null data, as many as its length |
| Common.NullEmptyRoundTrip | src/components/contributor/ContentEditDialog.tsx:63-101 | a text stored as null when empty reads back into the form unchanged, and a stored value other than the empty string, which no write produces, is written back unchanged |
| Text.TrimIsSlice | src/components/admin/PendingContentList.tsx:113 | `trim` returns the slice between a leading and a trailing run of white space, with no white space at either end |
| Text.BlankIffAllSpace | src/components/qa/AnswerForm.tsx:26 | a text is blank iff every character is white space |
| Text.TrimOfTrimmed | src/components/contributor/ContentEditDialog.tsx:43-45 | trimming a trimmed text changes nothing |
| Text.TrimPadded | src/components/contributor/ContentEditDialog.tsx:66 | white space added around a trimmed text is exactly what `trim` removes |
| Text.EmptyQueryIncluded | src/components/qa/QuestionList.tsx:130-132 | every text contains the empty query |
| Text.ToLowerIdempotent | src/components/admin/AllContentList.tsx:130-131 | lowering twice is lowering once, and a lowered text has no ASCII capital |
| Text.CaseOfEitherSideIrrelevant | src/components/qa/QuestionList.tsx:130-132 | lowering the text or the query beforehand does not change a case-insensitive search |
| Text.Utf16Len | src/components/contributor/ContentEditDialog.tsx:43-45 | JavaScript's length is at least the number of characters and at most twice it |
| Text.Utf16LenOfBmp | src/components/contributor/ContentEditDialog.tsx:43-48 | length equals the number of characters iff every character is in the Basic Multilingual Plane |
| Text.Take | src/components/contributor/ContentEditDialog.tsx:48 | the prefix of at most n elements, all of them when there are fewer |
| Text.SplitPartsFree | src/components/contributor/ContentUploadForm.tsx:105 | no part of a split holds the separator |
| Text.JoinSplit | src/components/contributor/ContentEditDialog.tsx:47-48 | joining the parts of a split with the separator gives the text back |
| Text.SplitJoin | src/components/contributor/ContentEditDialog.tsx:66 | splitting a join of separator-free parts gives the parts back |
| Text.AfterLastDotMeaning | src/components/contributor/ContentUploadForm.tsx:63 | the extension is the dot-free text after the last dot, or the whole name when there is no dot |
| Text.AfterLastDotOf | src/components/contributor/ContentUploadForm.tsx:63-64 | the extension of `<pre>.<ext>` is `ext` for a dot-free `ext` |
| Lists.Filter | src/components/admin/AllContentList.tsx:128 | the result is no longer than the list and every element passes the test |
| Lists.FilterIsSubsequence | src/components/admin/AllContentList.tsx:128 | a filter is an ordered sub-sequence of its input |
| Lists.FilterMembership | src/components/admin/AllContentList.tsx:128 | an element is in the filter iff it is in the list and passes the test |
| Lists.Count | src/components/admin/AdminAnalytics.tsx:61-63 | `filter(...).length` is at most the list's length |
| Lists.CountThree | src/components/contributor/ContributorOverview.tsx:24-32 | when every element passes exactly one of three tests, the three counts add up to the length |
| Lists.Dedup | src/components/admin/PendingAnswersList.tsx:38 | `[...new Set(xs)]` has no repeats, keeps exactly the elements of `xs`, and is no longer |
| Lists.DedupOfDistinct | src/components/admin/PendingAnswersList.tsx:38 | de-duplicating a list without repeats changes nothing |
| Order.BelowTotal | src/components/content/ContentBrowser.tsx:111 | the default sort orders any two different strings one way or the other |
| Order.BelowTransitive | src/components/content/ContentBrowser.tsx:111 | the default sort order is transitive |
| Order.Insert | src/components/content/ContentBrowser.tsx:111 | inserting a new string into an ascending list keeps it ascending and adds exactly that string |
| Order.SortedList | src/components/content/ContentBrowser.tsx:111 | `Array.from(set).sort()` is strictly ascending and holds exactly the set's strings |
| Order.InsertByKeySorted | src/components/admin/AdminAnalytics.tsx:100 | insertion keeps a list in non-increasing key order |
| Order.SortByKeyDesc | src/components/admin/AdminAnalytics.tsx:116 | the sort is a permutation of its input |
| Order.SortByKeyDescSpec | src/components/admin/AdminAnalytics.tsx:99-116 | the sort is in non-increasing key order, keeps the length and keeps a list free of repeats free of repeats |

What the code does that a reader might not expect, and the model follows:

- Editing an item that is already approved keeps its admin notes. A later status change in the admin list does not clear them either.
- An admin's change to approved always writes a new publication time, also when the item was approved before.
- The admin list updates only the status of its local row, not the publication time the server stored.
- The library's remove removes the item from the shown list even when the remote removal failed (`src/pages/Library.tsx:135-136`).
- A tag that the edit parse cuts to 50 characters can end in a space: it is trimmed before it is cut, not after.
- The upload inserts the title, description and author exactly as typed, without trimming them.
- The answer form's `handleSubmit` checks only for a user and a non-blank text, not the role. The role gate is on rendering alone.
- The question list shows every fetched answer, and a rejected one carries the same "Pending" badge as one awaiting review (`src/components/qa/QuestionList.tsx:217`).
- The edit schema accepts a title or author of exactly 200 characters, and a description of exactly 2000. Its messages say "less than".

## Left out

- Remote calls are not modelled. These are queries, inserts, updates, deletes, storage uploads, `getPublicUrl`, `createSignedUrl`, and the auth and analytics-tracking calls. Each is a parameter: its outcome, or the row it returned. Row-level security is on the server and not in this code.
- Toasts and `console.error` are not modelled. The busy flags `actionLoading`, `deletingId`, `updatingId`, `isSubmitting` and `isCreating` are modelled.
- The `loading` flag is modelled in PendingAnswersList, AdminAnalytics, UserManagement, useFavorites and usePlaylists. The spinners of PendingContentList, AllContentList, MyContentList, QuestionList and ContentBrowser are not modelled: those components show them only during a fetch, which is a remote call.
- Concurrency and stale closures are not modelled. Each handler is one atomic step, or two split at its `await`.
  - `MyContentList` filters the `content` it captured (`src/components/contributor/MyContentList.tsx:76`). It is modelled as filtering the current list.
  - `toggleFavorite` decides on the set it captured. It is modelled on the current set.
- Time is an opaque integer: `Date.now()`, `toISOString` and `toLocaleDateString`.
  - Analytics.DateFilter is `now - days·86400000`. This stands for `getDateFilter`'s calendar arithmetic, which can differ across a daylight-saving change.
  - `created_at` is not a column of the content model, since it only orders fetches.
- Text is handled in a simplified form.
  - `toLowerCase` is ASCII only.
  - `trim` is the ECMAScript white-space set on code points.
  - The default `sort` compares code points, not UTF-16 units. The two orders differ only outside the Basic Multilingual Plane.
- `new URL(...).pathname` and `decodeURIComponent` are parameters of Storage.ExtractPath, not implemented.
- ContentUpload.Inserted: the insert leaves out status, notes and publication time, so the table's column defaults fill them. Those defaults are in the database schema, not in this code. The model assumes `pending`, null and null, and ContentUpload.InsertedStartsPending rests on that assumption.
- Tags.CapEach: the 50-character cut counts code points, and JavaScript's `slice(0, 50)` counts UTF-16 units. The two agree for tags whose characters are all in the Basic Multilingual Plane (Text.Utf16LenOfBmp). A cut that splits a surrogate pair leaves a lone surrogate, which a Dafny string cannot hold.
- Tags.CappedTagsBounded: "at most 50 characters" is in code points, for the reason given for Tags.CapEach. A tag of astral characters may be longer in UTF-16 units.
- Tags.CappedIsCutUpload: the cut to 50 is in code points, for the reason given for Tags.CapEach.
- Tags.TagsRoundTrip: its hypothesis bounds tags in code points. Callers inside the model bound them in UTF-16 units, which implies it (ContentEdit.Normalised), so ContentEdit.PrefillSubmitUnchanged holds in JavaScript's terms.
- The `maxLength={200}` of the edit dialog's title input is not modelled. It only limits typing, and the schema checks the same bound.
- Analytics.TopIds: `Object.entries` lists integer-like keys first, in numeric order. The model lists all keys in insertion order. The two agree for the UUID keys the table uses.
- ContributorOverview.ApprovalRate: `Math.round` on a floating-point quotient is modelled as exact rational rounding, half up.
- The thrown-exception path of `fetchAnalytics` is not modelled. Its queries ignore their errors, and null data counts as empty.
- ContributorOverview is modelled without its `isLoading` skeleton.
- `ContributorStats.tsx` is presentation only, so it is not part of this model.
- Playlists.PlaylistStore.Fetched takes the rows with their item counts already attached. The per-playlist count queries are remote calls.
- PendingAnswers.PendingAnswersList.FinishFetch ignores a failed question query, as the code does. Its answers then have no question.
- ContentUpload.AcceptedFileTypes is built by joining the fixed extension lists, not written as four literal strings. Its lemma reads it back entry by entry.
- Questions.GroupAnswers: "each answer is placed exactly once" is stated as "each group equals the answers of that question, in fetched order". That is a filter of the fetched list, so it cannot hold an answer twice.
- These pages and components are presentation or routing only, and are not part of this model: the home pages, the layout, `Register.tsx`, `Books.tsx`, `Audio.tsx`, `VideoPage.tsx`, `QA.tsx`, `QASection.tsx`, `App.tsx`, `AdminDashboard.tsx`, `ContributorDashboard.tsx`, `ForgotPassword.tsx`, `useAnalytics.ts` and `useContentStats.ts`.
