# whitedonkey intake site — a verified model

This project models the rule-bearing logic of the whitedonkey site, a Next.js site for a
digital-marketing agency. Clients apply for a project through an intake form, upload
attachments, look up their application by tracking id and send contact inquiries. Staff
review applications, export them, publish notices and edit site settings.

What is modelled:

- **Intake schema.** The submission, lookup and admin-update schemas are a validity predicate per field plus a normaliser. Lengths are JavaScript (UTF-16) lengths. Zod's `.email()` and `.cuid()` checks are parameters (`FormatChecks`).
- **Shared constants.** The project-type, budget, status and priority tables are datatypes. The upload limits are constants.
- **Utilities.** The `WD-…` tracking-id builder (clock and random text as inputs), the filename sanitiser and the client-IP header parse.
- **Upload endpoint.** The magic-byte signature table and its check, the fixed check order, the stored file name, and POST and DELETE. Both handlers are methods over an abstract database of attachment rows, application rows and stored files.
- **Application endpoint.** POST runs validate, then the attachment claim check, then create and claim. GET projects the public subset of one application.
- **Contact endpoint.** The presence check, the home-made e-mail pattern (proved equal to the regular expression as written), normalisation, the error-status mapping and list pagination.
- **Admin list and export endpoints.** The `where` builder, ordering and skip/take/pages arithmetic; the export rows and file name.
- **Browser pages and components.** Each page's state is a class:
  - the admin applications page (filters, status overwrite, counts);
  - the public and admin notice pages;
  - the settings page's dirty flag;
  - the upload widget's partition loop;
  - the intake form's uploaded-file list mirrored into `attachmentIds`.

Behaviour of the code that the model follows:

- Application status has five values (including `ON_HOLD`). The export route's and the admin page's label tables have only four, so an `ON_HOLD` row shows its raw key in the export.
- A successful application POST answers 200, not 201.
- The attachment claim check runs before, and outside, the transaction that creates the application. The model runs the steps one after another.
- A negative `limit` is not an error. The query engine reads a negative take as counting from the end, so `?limit=-5` on page 1 lists the five oldest matches with status 200. Only a negative skip makes the list endpoints answer 500.
- The settings page compares settings by their JSON text. The model compares them as maps of values, so a `NaN` number is one value (`Number(None)`).

## Model

| member | source | states |
|---|---|---|
| Constants.ProjectTypeOf | lib/constants/index.ts:8-15 | a key maps to a project type exactly when it is that type's key |
| Constants.BudgetRangeOf | lib/constants/index.ts:17-23 | a key maps to a budget bracket exactly when it is that bracket's key |
| Constants.StatusOf | lib/constants/index.ts:25-31 | a key maps to a status exactly when it is that status's key |
| Constants.PriorityOf | lib/constants/index.ts:33-38 | a key maps to a priority exactly when it is that priority's key |
| Constants.KeyListsMatchTables | lib/constants/index.ts:8-31 | the key lists are exactly the table keys: 6 project types, 5 budgets, 5 statuses |
| Constants.UploadLimits | lib/constants/index.ts:46-58 | the size limit is 5·1024·1024 bytes and six MIME types are allowed |
| ApplicationValidation.SchemaEnumsMatchTables | lib/validations/application.ts:34-58 | the schema's enum lists equal the constant tables' keys, and the attachment cap equals maxFiles |
| ApplicationValidation.CuidIssues | lib/validations/application.ts:77-81 | no issue is reported exactly when every id passes the cuid check; every issue names attachmentIds |
| ApplicationValidation.FieldIssuesSpec | lib/validations/application.ts:5-81 | a field reports no issue exactly when it is valid (raw-length bounds, phone characters, enum membership, ≤ 5 ids), and every issue names that field |
| ApplicationValidation.FieldReported | lib/validations/application.ts:5-81 | one field's check reports a field exactly when it is that field and the field is invalid |
| ApplicationValidation.ReportedConcat | lib/validations/application.ts:5-81 | a field is reported in joined issue lists exactly when it is reported in one of them |
| ApplicationValidation.IssuesOfSpec | lib/validations/application.ts:4-82 | the issue list names a field exactly when the field is checked and invalid |
| ApplicationValidation.IssuesOfEmpty | lib/validations/application.ts:4-82 | the issue list is empty exactly when every checked field is valid |
| ApplicationValidation.SubmitIssuesSpec | lib/validations/application.ts:4-82 | every invalid field of the submission is reported, no valid one is, and no issues means all fields are valid |
| ApplicationValidation.ValidIsComplete | lib/validations/application.ts:4-82 | a payload whose fields are all valid carries every required value |
| ApplicationValidation.ValidHasContacts | lib/validations/application.ts:5-25 | a valid payload has company, contact name, e-mail and phone |
| ApplicationValidation.ValidHasProject | lib/validations/application.ts:28-74 | a valid payload has title, description, timeline and both requirement texts |
| ApplicationValidation.ParseSubmit | lib/validations/application.ts:4-82 | succeeds exactly when every field is valid; the result is trimmed where the schema trims and raw elsewhere; its keys map back to the tables; an absent id list becomes [] and holds at most 5 ids; a failure reports exactly the invalid fields |
| ApplicationValidation.ParseCheck | lib/validations/application.ts:84-89 | accepts exactly an id of length 1..50 and returns it unchanged |
| ApplicationValidation.ParseAdminUpdate | lib/validations/application.ts:91-111 | accepts exactly when the optional status and priority are known keys and the notes are at most 5000 long; known keys map back |
| Utils.KeepAllowed | lib/utils.ts:36 | keeps only allowed characters, as a subsequence of the input, and leaves all-allowed text unchanged |
| Utils.SanitizeFilename | lib/utils.ts:34-38 | at most 100 characters, all allowed (no '/' or '\\'), a prefix of the filtered name, and the whole filtered name when it fits |
| Utils.SanitizeKeepsCleanNames | lib/utils.ts:34-38 | a name of allowed characters at most 100 long is returned unchanged |
| Utils.SanitizeIdempotent | lib/utils.ts:34-38 | sanitising twice is sanitising once |
| Utils.DigitRoundTrip | lib/utils.ts:9 | decoding a base-36 digit returns its value |
| Utils.FromBase36Append | lib/utils.ts:9 | appending a digit to base-36 text multiplies the value by 36 and adds the digit |
| Utils.Base36RoundTrip | lib/utils.ts:9 | `toString(36)` output decodes back to the number |
| Utils.ApplicationIdShape | lib/utils.ts:8-12 | the id starts with "WD-", has exactly two dashes at fixed places, has length bounds from the time digits, and every other character is an upper-case base-36 digit |
| Utils.TimestampRoundTrip | lib/utils.ts:8-12 | the segment between the dashes decodes back to the clock reading |
| Utils.GetClientIP | lib/utils.ts:40-53 | the trimmed first comma-separated entry of a non-empty x-forwarded-for, else a non-empty x-real-ip verbatim, else "unknown" |
| UploadRoute.SomeSignatureMatches | app/api/upload/route.ts:27-31 | true exactly when some signature matches the leading bytes |
| UploadRoute.SignatureLengths | app/api/upload/route.ts:10-21 | every listed type has a signature, and every signature is 3 to 8 bytes |
| UploadRoute.SignatureTableCoversAllowList | app/api/upload/route.ts:10-21 | the signature table's types are exactly the allow-listed MIME types |
| UploadRoute.FirstEightBytes | app/api/upload/route.ts:27-31 | comparing a signature of at most 8 bytes with the first 8 bytes is the same as a prefix test |
| UploadRoute.ValidateFileSignature | app/api/upload/route.ts:23-32 | true exactly when the type has a table entry and one of its signatures is a prefix of the content |
| UploadRoute.SignatureOnlyReadsEightBytes | app/api/upload/route.ts:27 | bytes after the eighth never change the verdict |
| UploadRoute.ShortFileRejected | app/api/upload/route.ts:23-32 | content shorter than every signature is rejected |
| UploadRoute.LastIndexOf | app/api/upload/route.ts:73-75 | the position of the last occurrence of a character, or -1 when there is none |
| UploadRoute.ExtName | app/api/upload/route.ts:74 | the extension is a suffix starting with its only '.', or empty |
| UploadRoute.BaseNamePlusExtName | app/api/upload/route.ts:74-75 | the base name followed by the extension gives back the uploaded name |
| UploadRoute.StoredFilenameShape | app/api/upload/route.ts:73-78 | the stored name is the sanitised base, "_", the uuid and the extension, with no '/' when the uuid has none |
| UploadRoute.RemoveFirstSlash | app/api/upload/route.ts:145 | only the first '/' is removed |
| UploadRoute.UnlinkPathIsDiskPath | app/api/upload/route.ts:80-98 | the path DELETE unlinks (line 145, and line 32 of app/api/upload/[id]/route.ts) is the path POST wrote |
| UploadRoute.FirstFailedCheck | app/api/upload/route.ts:39-71 | missing file, then size over the limit, then type not allowed, then signature mismatch; each error exactly when the earlier checks pass and this one fails |
| UploadRoute.SignatureImpliesAllowed | app/api/upload/route.ts:10-32 | a file that passes the signature check has an allow-listed type |
| UploadRoute.Post | app/api/upload/route.ts:34-116 | nothing is stored unless all checks pass; otherwise the file is written under the stored name and an unowned row with url "/uploads/"+name is added; a write or insert failure answers 500 |
| UploadRoute.Delete | app/api/upload/route.ts:118-158 | the handler at app/api/upload/[id]/route.ts lines 5-47, which serves `/api/upload/<id>` and repeats these lines: an unknown id answers 404 and changes nothing; otherwise the row is removed, then the file is unlinked, and an unlink failure still answers success |
| ApplicationsRoute.DistinctCount | app/api/applications/route.ts:28-36 | a list has as many distinct ids as entries exactly when it has no duplicates |
| ApplicationsRoute.ClaimCheckSpec | app/api/applications/route.ts:28-42 | the count of matching unowned rows equals the list length exactly when the ids are distinct, all exist and are all unowned |
| ApplicationsRoute.Claim | app/api/applications/route.ts:66-75 | listed attachments get the new owner, others are unchanged, and no row appears or disappears |
| ApplicationsRoute.ClaimNothing | app/api/applications/route.ts:28-66 | an empty id list changes no attachment |
| ApplicationsRoute.ErrorStatus | app/api/applications/route.ts:87-102 | 409 exactly when the message contains "Unique constraint", otherwise 500 |
| ApplicationsRoute.TrackingIdCollisionIsConflict | app/api/applications/route.ts:87-95 | every error message containing "Unique constraint", the store's tracking-id collision among them, answers 409 |
| ApplicationsRoute.InsertKeepsKeys | app/api/applications/route.ts:45-78 | inserting a fresh row and claiming keeps row ids and tracking ids unique and every owner an existing row |
| ApplicationsRoute.Insert | app/api/applications/route.ts:45-78 | the row is appended, the listed attachments are claimed for it, and stored files are unchanged |
| ApplicationsRoute.Submit | app/api/applications/route.ts:9-103 | invalid input answers 400 with the issues and stores nothing; a failed claim check answers 400; once validation and the claim check pass: a taken tracking id answers 409, otherwise a fault answers its mapped status, otherwise the request succeeds; success appends a PENDING row with the validated fields and tracking id and claims the listed attachments |
| ApplicationsRoute.FindByTrackingId | app/api/applications/route.ts:118-120 | finds the index of a row with that tracking id, or none exactly when no row has it |
| ApplicationsRoute.AttachmentsOf | app/api/applications/route.ts:121-130 | exactly the attachments owned by the row |
| ApplicationsRoute.Lookup | app/api/applications/route.ts:105-161 | 400 exactly when no id is given, 404 exactly when no row has it, otherwise the public projection of that row |
| ApplicationsRoute.LookupFindsRow | app/api/applications/route.ts:118-152 | with unique tracking ids, looking up a row's id returns that row's projection |
| ApplicationsRoute.SubmitThenLookup | app/api/applications/route.ts:45-78 | after a submission, looking up its tracking id returns the new row with exactly the attachments it claimed (also lines 118-152) |
| Paging.CeilPages | app/api/contact/route.ts:151 | `Math.ceil(total/limit)`: no number for limit 0, the least page count covering total for a positive limit |
| Paging.CeilBounds | app/api/admin/applications/route.ts:64 | for a positive limit, pages·limit ≥ total and (pages−1)·limit < total |
| Paging.Window | app/api/admin/applications/route.ts:54-55 | skip/take: fails exactly on a negative skip; a non-negative take gives the slice from skip of at most take rows (exactly take when they exist); a negative take gives the slice of at most −take rows ending skip rows before the end |
| Paging.BackwardSlice | app/api/admin/applications/route.ts:54-55 | reversing, skipping and taking, then reversing back is the slice counted from the end |
| Paging.EveryRowOnAPage | app/api/admin/applications/route.ts:54-64 | every row appears on exactly one page within the page count |
| Paging.MulLe | app/api/admin/applications/route.ts:54-55 | multiplying by a positive limit keeps order |
| ContactRoute.EmailMatchesIffShape | app/api/contact/route.ts:29-35 | the one-pass test accepts exactly the strings of `^[^\s@]+@[^\s@]+\.[^\s@]+$` |
| ContactRoute.MatchesToShape | app/api/contact/route.ts:29-35 | every accepted address has the pattern's three runs |
| ContactRoute.ShapeToMatches | app/api/contact/route.ts:29-35 | every address with the pattern's three runs is accepted |
| ContactRoute.RunSlice | app/api/contact/route.ts:29 | a slice of a run is a run |
| ContactRoute.MatchedEmailIsTrimmed | app/api/contact/route.ts:29-40 | an accepted address has nothing to trim |
| ContactRoute.TrimKeepsUnspacedEnds | app/api/contact/route.ts:38-47 | text with non-space ends is its own trim |
| ContactRoute.ErrorStatus | app/api/contact/route.ts:64-87 | 503 exactly when the message contains "connect", else 429 exactly for "Unique constraint", else 500 |
| ContactRoute.NormaliseCompany | app/api/contact/route.ts:42 | the trimmed company, or none exactly when absent or blank |
| ContactRoute.Post | app/api/contact/route.ts:15-88 | 400 exactly when a required value is empty, 400 exactly for an address outside the pattern, the mapped status exactly on a fault, otherwise 201 with the id and the normalised PENDING record |
| ContactRoute.StoredEmailIsLowered | app/api/contact/route.ts:38-47 | the stored address is the submitted one lower-cased |
| ContactRoute.SampleEmailMatches | app/api/contact/route.ts:29 | "a@b.co" matches |
| ContactRoute.BlankNameAccepted | app/api/contact/route.ts:18-26 | a whitespace-only name passes the presence check and is stored empty |
| ContactRoute.Newest | app/api/contact/route.ts:138 | a permutation of the table with creation times descending |
| ContactRoute.ListPage | app/api/contact/route.ts:122-153 | page 1 and limit 20 by default; fails exactly on a negative skip; otherwise the window of the newest-first table, each row reduced to its seven selected columns; total is the table size and pages = ⌈total/limit⌉ |
| ContactRoute.DefaultListIsFirstTwenty | app/api/contact/route.ts:122-153 | with no parameters the reply holds the 20 newest inquiries, without their messages |
| AdminQuery.WhereOf | app/api/admin/applications/route.ts:14-31 | a status or project-type condition exactly when present and not "all"; a search condition exactly when non-empty; a row matches exactly when it passes all three |
| AdminQuery.NoParametersNoFilter | app/api/admin/applications/route.ts:14 | no parameters (or "all" and "") build the empty filter, which every row matches |
| AdminQuery.MatchingRows | app/api/admin/applications/route.ts:37-41 | an order-keeping sublist of exactly the matching rows |
| AdminQuery.NewerFirstIsTotalPreorder | app/api/admin/applications/route.ts:51-53 | createdAt descending is a total preorder |
| AdminQuery.FindMany | app/api/admin/applications/route.ts:37-56 | a permutation of the matching rows, newest first |
| AdminQuery.NoFilterKeepsTable | app/api/admin/applications/route.ts:14-56 | the empty filter keeps every row |
| AdminApplicationsRoute.BuildWhere | app/api/admin/applications/route.ts:14-31 | the conditional assignments build the filter WhereOf states |
| AdminApplicationsRoute.Get | app/api/admin/applications/route.ts:5-74 | page 1 and limit 50 by default; for a non-negative limit the ordered matches from (page−1)·limit, at most limit of them; the reply is exactly the window of the ordered matches; total and pages = ⌈total/limit⌉; 500 exactly on a negative skip |
| AdminApplicationsRoute.DefaultListing | app/api/admin/applications/route.ts:10-55 | with no parameters the page is the first 50 rows of the whole table, newest first |
| ExportRoute.BuildWhere | app/api/admin/applications/export/route.ts:19-36 | no filters object gives the empty filter, otherwise the admin list's filter |
| ExportRoute.LabelFallbacks | app/api/admin/applications/export/route.ts:6-11 | a known key shows its label and an unknown key shows itself; only ON_HOLD among statuses shows its raw key (also lines 63-66) |
| ExportRoute.AttachmentsCellSpec | app/api/admin/applications/export/route.ts:70 | the names joined by ", ", or "없음" exactly when the join is empty |
| ExportRoute.ExportRows | app/api/admin/applications/export/route.ts:54-72 | one row per fetched application, in order, numbered k+1 |
| ExportRoute.ExportFileNameHasDate | app/api/admin/applications/export/route.ts:111 | the name is "applications_" + the date part before 'T' + ".xlsx" |
| ExportRoute.Export | app/api/admin/applications/export/route.ts:13-72 | the rows project the filtered, newest-first applications, and the name carries the date (also line 111) |
| AdminApplicationsPage.ClientFilter | app/admin/applications/page.tsx:157-181 | an order-keeping sublist of exactly the rows matching the search, status and project-type filters |
| AdminApplicationsPage.ClientFilterNone | app/admin/applications/page.tsx:157-181 | an empty search and both filters "all" keep the whole list |
| AdminApplicationsPage.SetStatus | app/admin/applications/page.tsx:183-191 | only the status of rows with the id changes; all other fields and rows stay |
| AdminApplicationsPage.SetStatusOverwrites | app/admin/applications/page.tsx:183-191 | any status may follow any other: the last one set wins (also lines 395-408) |
| AdminApplicationsPage.SetSameStatus | app/admin/applications/page.tsx:183-191 | setting a row's own status changes nothing |
| AdminApplicationsPage.GetStats | app/admin/applications/page.tsx:198-209 | total is the row count; pending and approved are the lengths of the PENDING and APPROVED filters; pending + approved ≤ total |
| Seqs.CountFilter | app/admin/applications/page.tsx:200-201 | the recursive count equals the length of the filtered list |
| AdminApplicationsPage.ApplicationsPage.constructor | app/admin/applications/page.tsx:150-154 | empty search, both filters "all", nothing selected, filtered list = list |
| AdminApplicationsPage.ApplicationsPage.ApplyFilters | app/admin/applications/page.tsx:157-181 | the three chained filters leave the filtered list equal to ClientFilter |
| AdminApplicationsPage.ApplicationsPage.SetSearchTerm | app/admin/applications/page.tsx:298 | sets the search and refilters |
| AdminApplicationsPage.ApplicationsPage.SetStatusFilter | app/admin/applications/page.tsx:303 | sets the status filter and refilters |
| AdminApplicationsPage.ApplicationsPage.SetProjectTypeFilter | app/admin/applications/page.tsx:316 | sets the project-type filter and refilters |
| AdminApplicationsPage.ApplicationsPage.ResetFilters | app/admin/applications/page.tsx:330-334 | search "", both filters "all", and the filtered list is the full list |
| AdminApplicationsPage.ApplicationsPage.UpdateApplicationStatus | app/admin/applications/page.tsx:183-191 | the list becomes SetStatus of the old list and the filter view is kept consistent |
| AdminApplicationsPage.ApplicationsPage.ChangeSelectedStatus | app/admin/applications/page.tsx:490-496 | updates the row and the open detail record to the new status |
| Notices.FilterNotices | app/notice/page.tsx:108-111 | an order-keeping sublist of exactly the notices whose lower-cased title or content contains the lower-cased term |
| Notices.EmptySearchKeepsAll | app/notice/page.tsx:108-111 | an empty term keeps every notice |
| Notices.ShownBeforeIsTotalPreorder | app/notice/page.tsx:114-118 | pinned first, then newer first, is a total preorder |
| Notices.SortNotices | app/notice/page.tsx:114-118 | a permutation; no unpinned notice before a pinned one; newer first within a pin state |
| Notices.Listed | app/notice/page.tsx:108-118 | the shown list is a permutation of the matching notices, pinned first and newest first within a pin state |
| Seqs.FilterMultiplicities | app/notice/page.tsx:108-111 | a filter keeps each element satisfying the predicate as often as it occurs and drops the others |
| Notices.FirstNonBlank | app/notice/page.tsx:298 | none exactly when every line is blank, otherwise the first non-blank line |
| Notices.PreviewSpec | app/notice/page.tsx:298 | non-blank content previews its first non-blank line, which has no line break; blank content previews its first 100 characters |
| NoticePage.IncrementViews | app/notice/page.tsx:130-136 | the matching notices' view count rises by 1; nothing else changes |
| NoticePage.IncrementAddsOneView | app/notice/page.tsx:130-136 | the total view count rises by the number of notices with the id |
| NoticePage.NoticePage.Shown | app/notice/page.tsx:108-118 | a permutation of the notices matching the current search, pinned first and newest first within a pin state |
| NoticePage.NoticePage.IncrementViewCount | app/notice/page.tsx:130-136 | the list becomes IncrementViews of the old list |
| NoticePage.NoticePage.Click | app/notice/page.tsx:138-141 | counts a view and opens the clicked notice |
| NoticePage.NoticePage.Back | app/notice/page.tsx:163 | closes the detail view and changes nothing else |
| AdminNotices.NextId | app/admin/notices/page.tsx:154 | at least 1, greater than every existing id, and either 1 or one more than an existing id |
| AdminNotices.CreateKeepsIdsUnique | app/admin/notices/page.tsx:151-162 | a notice with the next id put in front keeps ids unique |
| AdminNotices.ApplyEdit | app/admin/notices/page.tsx:136-149 | the matching notice takes the form's title, content, pin and the new updatedAt; id, view count and createdAt are kept; the length is unchanged |
| AdminNotices.TogglePinned | app/admin/notices/page.tsx:177-185 | flips the pin of the matching notice only |
| AdminNotices.ToggleTwice | app/admin/notices/page.tsx:177-185 | toggling twice restores the list |
| AdminNotices.RemoveId | app/admin/notices/page.tsx:170-175 | an order-keeping sublist of exactly the notices without the id |
| AdminNotices.NoticesManagement.constructor | app/admin/notices/page.tsx:86-95 | modal closed, not editing, empty search and form |
| AdminNotices.NoticesManagement.Shown | app/admin/notices/page.tsx:98-108 | a permutation of the notices matching the current search, pinned first and newest first within a pin state |
| AdminNotices.NoticesManagement.SetSearchTerm | app/admin/notices/page.tsx:221 | sets the search only |
| AdminNotices.NoticesManagement.OpenCreate | app/admin/notices/page.tsx:110-115 | opens the modal for a new notice with an empty form |
| AdminNotices.NoticesManagement.OpenEdit | app/admin/notices/page.tsx:117-126 | opens the modal in edit mode with the notice's values |
| AdminNotices.NoticesManagement.SetFormTitle | app/admin/notices/page.tsx:323 | sets the form's title only |
| AdminNotices.NoticesManagement.SetFormContent | app/admin/notices/page.tsx:334 | sets the form's content only |
| AdminNotices.NoticesManagement.SetFormPinned | app/admin/notices/page.tsx:346 | sets the form's pin flag only |
| AdminNotices.NoticesManagement.Submit | app/admin/notices/page.tsx:128-168 | accepted exactly when title and content are non-blank; a rejection changes nothing; an edit applies ApplyEdit; a create puts a new notice with the next id and view count 0 in front; acceptance closes the modal and clears the form |
| AdminNotices.NoticesManagement.Delete | app/admin/notices/page.tsx:170-175 | a confirmed delete removes exactly the notices with the id; a declined one changes nothing |
| AdminNotices.NoticesManagement.TogglePin | app/admin/notices/page.tsx:177-185 | the list becomes TogglePinned of the old list |
| SettingsPage.EditBackRestores | app/admin/settings/page.tsx:56-63 | writing a field's old value back restores the settings |
| SettingsPage.AdminSettings.constructor | app/admin/settings/page.tsx:38-54 | the initial settings, saved copy equal, no changes |
| SettingsPage.AdminSettings.HandleInputChange | app/admin/settings/page.tsx:56-63 | changes exactly one field; the dirty flag holds exactly when settings differ from the saved copy |
| SettingsPage.AdminSettings.Save | app/admin/settings/page.tsx:65-70 | the saved copy becomes the settings and the flag clears |
| SettingsPage.AdminSettings.Reset | app/admin/settings/page.tsx:72-78 | a confirmed reset restores the saved copy and clears the flag; a declined one changes nothing |
| SettingsPage.AdminSettings.SaveDisabled | app/admin/settings/page.tsx:106 | Save is disabled exactly when the settings equal the saved copy |
| SettingsPage.AdminSettings.CancelShown | app/admin/settings/page.tsx:101-105 | Cancel is shown exactly when the settings differ from the saved copy |
| FileUpload.ErrorOf | components/ui/file-upload.tsx:83-94 | too large exactly when over the size limit; unsupported exactly when within the limit and of a type not accepted; no error otherwise |
| FileUpload.ValidFiles | components/ui/file-upload.tsx:80-97 | an order-keeping sublist of exactly the files within the limit and of an accepted type |
| FileUpload.Errors | components/ui/file-upload.tsx:80-97 | at most one error per file |
| FileUpload.ValidFilesSnoc | components/ui/file-upload.tsx:80-97 | a further file is appended to the valid list exactly when it is accepted |
| FileUpload.PartitionCounts | components/ui/file-upload.tsx:80-97 | each file lands in exactly one of the two lists |
| FileUpload.Partition | components/ui/file-upload.tsx:80-97 | the loop pushes exactly ValidFiles and Errors |
| FileUpload.CanUploadMore | components/ui/file-upload.tsx:116 | true exactly when fewer files than the maximum are uploaded |
| FileUpload.FileUploadWidget.constructor | components/ui/file-upload.tsx:38 | not uploading |
| FileUpload.FileUploadWidget.HandleFiles | components/ui/file-upload.tsx:70-114 | an empty selection is ignored; too many files rejects the whole selection; otherwise the partition is reported and the upload runs once, with exactly the valid files, only when there are any; the uploading flag is clear afterwards |
| ApplicationForm.PrototypeSlugSlipsThrough | components/forms/application-form.tsx:52-53 | as written, the slug "toString" yields an inherited member both as default project type and as heading (also lines 152-162) |
| ApplicationForm.DefaultProjectType | components/forms/application-form.tsx:42-53 | a default exactly for the six known slugs, and it is a project-type key |
| ApplicationForm.ServiceDisplayName | components/forms/application-form.tsx:152-162 | the service title for a known slug, "협력 신청" otherwise |
| ApplicationForm.CorrectedAgreesOnKnownSlugs | components/forms/application-form.tsx:42-53 | on known slugs the corrected lookups agree with the written ones, and the title is the project-type label (also lines 152-162) |
| ApplicationForm.IdsOf | components/forms/application-form.tsx:83 | the ids of the files, in order |
| ApplicationForm.IdsOfAppend | components/forms/application-form.tsx:83-117 | ids of an appended list are the appended ids |
| ApplicationForm.WithoutFile | components/forms/application-form.tsx:135 | an order-keeping sublist of exactly the files without the id |
| ApplicationForm.RemovedIds | components/forms/application-form.tsx:83 | removing a file removes exactly its id from attachmentIds (also line 135) |
| ApplicationForm.UploadThenRemove | components/forms/application-form.tsx:83 | ids after an upload and a removal are the old and new ids without the removed one (also lines 117, 135) |
| ApplicationForm.ApplicationFormState.constructor | components/forms/application-form.tsx:37-67 | no files, not uploading, default values with the mapped project type |
| ApplicationForm.ApplicationFormState.MirrorAttachmentIds | components/forms/application-form.tsx:82-84 | attachmentIds becomes the uploaded files' ids |
| ApplicationForm.ApplicationFormState.SetField | components/forms/application-form.tsx:211 | sets one form field |
| ApplicationForm.ApplicationFormState.SetProjectType | components/forms/application-form.tsx:73-74 | sets the project type |
| ApplicationForm.ApplicationFormState.HandleFileUpload | components/forms/application-form.tsx:86-125 | a success appends the new files after the old ones and returns their ids; a failure changes nothing; attachmentIds stays the file ids; uploading ends clear |
| ApplicationForm.ApplicationFormState.HandleFileRemove | components/forms/application-form.tsx:127-139 | drops exactly the files with the id, or nothing when the delete throws; attachmentIds stays the file ids |
| ApplicationForm.ApplicationFormState.HandleFormSubmit | components/forms/application-form.tsx:141-150 | success resets the form and empties the files; failure changes neither |

## Left out

- Prisma, the filesystem and request parsing are not modelled. Tables are abstract maps and sequences in `Tables.Database`. A failed disk write, insert, delete or unlink is a boolean or fault input. Transaction atomicity and the concurrent double-claim race are not modelled.
- Time, randomness and UUIDs are parameters: `Date.now()` as a number of milliseconds, `Math.random().toString(36)` as a string input, `crypto.randomUUID()` as a string input.
- Zod's `.email()` and `.cuid()` are uninterpreted predicates passed in `FormatChecks`.
- `parseInt` of query strings and environment variables is not modelled. Page and limit parameters arrive as optional integers, so the NaN cases are out. `maxFileSize` is the default without an environment override.
- Case-insensitive matching (Prisma `mode: "insensitive"`, `toLowerCase`) is modelled as ASCII lower-casing. Unicode case folding is out.
- AdminQuery.FindMany: ties under createdAt descending keep table order. The database leaves their order unspecified, so the model fixes one of the allowed orders.
- Notices.PreviewSpec: the 100-character prefix counts code points, not UTF-16 units.
- Seqs.SortBy: the insertion keeps equal elements in input order, as the stable `Array.prototype.sort` does, but no lemma states this; Notices.SortNotices' contract leaves the order of notices with the same pin state and creation time open.
- AdminApplicationsRoute.Get: the `include` of each application's attachments (six columns) is not modelled; the listed rows are the application rows alone.
- ContactRoute.ContactForm: request values that are not strings are not modelled. A truthy non-string name passes the presence check and then throws at `.trim()`, which the handler answers with 500.
- AdminApplicationsPage: the page's row type declares `id` as a number and uses it only as a list key; the model keeps the table's string row id, since the schema that defines the column is not part of this model.
- Dates are integers. Locale formatting, `formatFileSize` (floating point), `thisMonth` statistics and the export's date columns are out.
- ExportRoute.Export: workbook and sheet building, column widths and the response headers are out. The clock is the ISO text `new Date().toISOString()` produces.
- Drag-and-drop handlers, the `isDragging` flag, `alert` and the parallel `Promise.all` of uploads are out. An upload or delete request is one succeeding or failing step.
- Project-type and budget label lookups in the export assume the key is a table key or misses. Inherited `Object.prototype` members are considered only in the application form's finding.
- SettingsPage.AdminSettings.HandleInputChange: `JSON.stringify` equality is modelled as equality of value maps, with `NaN` as a number value of its own.
- AdminNotices.NoticesManagement.Submit: one `now` gives both createdAt and updatedAt.
- The admin gate, the presentation-only pages and components, the seed, configuration and the type declarations are not part of this model. They hold no rules the intake logic depends on.

## Findings

| source | as written | input that shows it | evidently intended | confidence | as-written member | corrected member |
|---|---|---|---|---|---|---|
| components/forms/application-form.tsx:52-53, 152-162 | `serviceMapping[serviceParam]` and `serviceNames[serviceId]` index plain object literals, so inherited `Object.prototype` members are found too | `/apply?service=toString` (also `constructor`, `__proto__`) | only the six own slugs give a default project type and a title; anything else gives no default and "협력 신청" | not executed | ApplicationForm.PrototypeSlugSlipsThrough | ApplicationForm.DefaultProjectType |
