# Wiki de Assistência Técnica — a verified model

This project models the core of a small technical-support wiki. The wiki has an Express server
and a React client. On the server, technicians and administrators write problems: a title,
a description, a category, comma-joined tags, an optional YouTube link and uploaded
attachments. Administrators manage the users, and a Redis-backed session store gates
every request. On the client, pages list, filter, create and edit those problems.

The model follows the program's structure, one module per source file or concern:

- `UserModel`, `ProblemModel`: the two Sequelize models. Rows are values. A table is a
  class over `map<nat, Row>`. A loaded instance is a class whose setters change its
  fields until `save` writes the row back. The `tags` and `files_json` accessors are
  written out.
- `JsonText`, `Text`, `Seqs`, `StringSort`: the pieces of JavaScript the wiki relies on.
  That is `JSON.stringify`/`JSON.parse` on arrays of strings, `toLowerCase`, `split`,
  `join`, `trim`, `includes`, `filter`, `[...new Set(xs)]` and `sort()` on strings.
- `FileStore`: the upload directory, as the set of paths present on disk.
- `ProblemRoutes`, `UsersRoutes`, `AuthRoutes`, `App`: the routes, with their status codes,
  permission checks, upload filter, attachment reconciliation and clean-up. Also the
  reconnect strategy, the readiness gate, the one-time setup and the passport callbacks.
- `TagEditing`, `FileNames`, `EditProblem`, `CreateProblem`, `ProblemDetail`, `Home`,
  `TagList`, `CategoryList`, `Sidebar`, `AppShell`: the client pages. Page state is a class
  whose handlers are methods. What a form sends or a page shows is a function, and
  lemmas connect it with the server's model.

Some behaviour of the code is easy to mistake, and the model keeps it as written:

- The reconnect strategy gives up only after more than 10 retries.
- A setup with a name already in use answers 409.
- The kept-attachment list of an edit is stored as given, without checking it against
  the current files.
- The last-administrator guard exists on delete only.
- Login tells an unknown name ("Usuário não encontrado") apart from a wrong password
  ("Senha incorreta").
- The client's edit route turns away authors with the `user` role, although the server
  would accept their edit.

Each of these is stated as a lemma on the model.

## Model

| member | source | states |
|---|---|---|
| UserModel.ParseRole | backend/models/user.js:19-26 | a text is admitted as a role exactly when it is `admin`, `tecnico` or `user`, and the role read names that same text |
| UserModel.ParseRoleName | backend/models/user.js:24 | every role's name is admitted and reads back as that role |
| UserModel.CompareHashed | backend/models/user.js:33-39 | `checkPassword` accepts the password `setPassword` hashed, whatever salt was drawn |
| UserModel.ToJsonHidesHash | backend/models/user.js:41-45 | `toJSON` keeps id, username and role and does not depend on the password hash |
| UserModel.UserInstance.Load | backend/models/user.js:3-30 | a loaded user holds exactly the stored row |
| UserModel.UserInstance.SetPassword | backend/models/user.js:33-35 | only the hash changes, and the new password is the one that checks |
| UserModel.UserTable.constructor | backend/models/user.js:27-30 | the table starts empty, with unique usernames |
| UserModel.UserTable.FindByUsername | backend/models/user.js:10-14 | a user is found exactly when one holds that exact name, and the row found is the stored one |
| UserModel.UserTable.Create | backend/models/user.js:5-14 | a name already held is refused with nothing stored; otherwise one row with the next id is added and names stay unique |
| UserModel.UserTable.Save | backend/models/user.js:10-14 | the row is replaced, names stay unique and the id counter is unchanged |
| UserModel.UserTable.Destroy | backend/models/user.js:5-9 | exactly that id leaves the table; the id counter is unchanged |
| ProblemModel.DefaultsDecode | backend/models/problem.js:16-24 | a row created with the defaults reads as category `Geral`, no tags and no files |
| ProblemModel.TrimAll | backend/models/problem.js:28 | `map(tag => tag.trim())`: same length, each piece trimmed |
| ProblemModel.TrimAllClean | backend/models/problem.js:28 | trimming changes no tag that is already trimmed |
| ProblemModel.TagsRoundTrip | backend/models/problem.js:25-38 | setting an array of trimmed, non-empty, comma-free tags and reading gives the same array |
| ProblemModel.TagsNonEmpty | backend/models/problem.js:25-29 | the getter never gives an empty tag |
| ProblemModel.FilesRoundTrip | backend/models/problem.js:40-50 | setting a file list and reading gives the same list in the same order |
| ProblemModel.ToJsonAfterSetFiles | backend/models/problem.js:72-77 | after the files setter, `toJSON` shows that list under `files` and every other field as stored |
| ProblemModel.ProblemInstance.Load | backend/models/problem.js:1-70 | a loaded problem holds exactly the stored row |
| ProblemModel.ProblemInstance.SetTags | backend/models/problem.js:30-38 | only the stored tag text changes; an array of clean tags reads back unchanged |
| ProblemModel.ProblemInstance.SetFiles | backend/models/problem.js:47-49 | only the stored JSON changes, and the getter gives the list back |
| ProblemModel.ProblemTable.constructor | backend/models/problem.js:67-70 | the table starts empty |
| ProblemModel.ProblemTable.Create | backend/models/problem.js:3-7 | the row is stored under the next, unused id |
| ProblemModel.ProblemTable.Save | backend/models/problem.js:1-70 | the row is replaced, nothing else changes, the id counter included |
| ProblemModel.ProblemTable.Destroy | backend/models/problem.js:1-70 | exactly that id leaves the table; the id counter is unchanged |
| JsonText.HexValue | backend/models/problem.js:45 | a hexadecimal digit of either case has a value below 16 |
| JsonText.SkipSpace | backend/models/problem.js:45 | skipping JSON white space never lengthens the text |
| JsonText.Unescape | backend/models/problem.js:45 | an escape, when read, takes between one character and the rest of the text |
| JsonText.ParseBody | backend/models/problem.js:45 | reading a string body leaves strictly less text behind |
| JsonText.HexDigitValue | backend/models/problem.js:48 | the digit `JSON.stringify` writes reads back as its value |
| JsonText.UnescapeEscape | backend/models/problem.js:48 | every escape `JSON.stringify` writes reads back as its character |
| JsonText.ParseBodyQuoted | backend/models/problem.js:45-48 | a written string body reads back as the string, followed by the text after its closing quote |
| JsonText.ParseItemsQuoted | backend/models/problem.js:45-48 | a written non-empty list of strings reads back as the same list |
| JsonText.ParseStringify | backend/models/problem.js:45-48 | `JSON.parse(JSON.stringify(xs))` gives `xs` back, in order |
| Text.Lower | backend/routes/problems.js:69 | the ASCII lower-casing keeps the length and maps each character on its own |
| Text.LowerIsLower | backend/routes/problems.js:69 | a lower-cased text is lower-case, and lower-casing it again changes nothing |
| Text.LowerAll | frontend/src/pages/EditProblem.js:52 | `map(tag => tag.toLowerCase())`: same length, each element lower-cased |
| Text.LowerAllIn | backend/routes/problems.js:69 | a text is in the lower-cased list exactly when it is the lower-cased form of some element |
| Text.LowerAllMembers | frontend/src/pages/EditProblem.js:102-105 | every lower-cased element is lower-case, and the list holds exactly the lower-cased forms |
| Text.ContainsEmpty | frontend/src/pages/Home.js:56-61 | every text includes the empty text |
| Text.Split | backend/models/problem.js:28 | `split` always gives at least one piece |
| Text.SplitNoSep | backend/models/problem.js:28 | a text without the separator splits into itself alone |
| Text.SplitAtSep | backend/models/problem.js:28 | a separator after a separator-free part starts a new piece |
| Text.SplitJoin | backend/models/problem.js:25-38 | joining parts without the separator and splitting gives the parts back |
| Text.JoinSplit | frontend/src/pages/EditProblem.js:206-215 | splitting on a separator and joining with it gives the text back |
| Text.TrimmedFixed | backend/models/problem.js:28 | `trim` leaves a text alone when neither end is white space |
| Text.LastIndexOf | frontend/src/pages/EditProblem.js:191 | the index of the last occurrence, with none after it, or -1 when absent |
| Text.IndexOf | frontend/src/pages/EditProblem.js:209 | the index of the first occurrence, with none before it, or -1 when absent |
| Text.AfterLastOf | frontend/src/pages/EditProblem.js:208 | `split(c).pop()` gives the text after the last `c` |
| Text.AfterLastNone | frontend/src/pages/EditProblem.js:208 | without `c`, `split(c).pop()` gives the whole text |
| Seqs.Filter | frontend/src/pages/Home.js:47 | `filter` keeps exactly the elements that pass, never more elements than it was given |
| Seqs.FilterIsSubseq | frontend/src/pages/Home.js:47 | `filter` keeps the elements in their order |
| Seqs.FilterAll | frontend/src/pages/Home.js:44-62 | a filter every element passes changes nothing |
| Seqs.FilterNone | frontend/src/pages/TagList.js:61 | a filter no element passes gives the empty list |
| Seqs.FilterTwice | frontend/src/pages/Home.js:44-62 | two filters in a row equal one filter by both conditions |
| Seqs.FilterConcat | frontend/src/pages/Home.js:67-73 | filtering a concatenation filters each part |
| Seqs.FilterNoDup | frontend/src/pages/Home.js:70 | filtering a list without duplicates leaves none |
| Seqs.RemoveAt | frontend/src/pages/EditProblem.js:141 | `filter((_, i) => i !== index)`: the element at that index is dropped, the rest kept in order |
| Seqs.RemoveAtMembers | frontend/src/pages/EditProblem.js:141 | in a list without duplicates, dropping position `i` removes exactly the element that was there |
| Seqs.Preview | frontend/src/pages/TagList.js:224-237 | `slice(0, n)` gives a prefix of at most `n`, and the count of the rest adds up to the length |
| Seqs.Dedup | backend/routes/problems.js:65-72 | `[...new Set(xs)]` holds each element of `xs` once and nothing else |
| Seqs.DedupNoDup | frontend/src/pages/EditProblem.js:108 | a list without duplicates passes through the Set unchanged |
| Seqs.DedupPrefix | frontend/src/pages/EditProblem.js:108 | the Set keeps first-occurrence order: the result for a prefix is a prefix of the result |
| StringSort.LessIrreflexive | backend/routes/problems.js:72 | no string sorts before itself |
| StringSort.LessTransitive | backend/routes/problems.js:72 | string order is transitive |
| StringSort.LessTotal | backend/routes/problems.js:72 | of two different strings one sorts first |
| StringSort.InsertSorted | backend/routes/problems.js:72 | inserting a new string into a strictly sorted list keeps it strictly sorted and adds exactly that string |
| StringSort.SortSorted | backend/routes/problems.js:72 | `sort()` on distinct strings gives them ascending, the same strings |
| StringSort.StrictlySortedDistinct | backend/routes/problems.js:92 | a strictly ascending list holds no string twice |
| FileStore.Disk.constructor | backend/routes/problems.js:11-19 | the directory holds the given paths |
| FileStore.Disk.Write | backend/routes/problems.js:11-19 | writing uploads adds exactly their paths |
| FileStore.Disk.UnlinkIfExists | backend/routes/problems.js:199-202 | unlinking if present removes that path and never fails |
| FileStore.Disk.UnlinkEach | backend/routes/problems.js:242-247 | after the loop none of the files is left and every other path stays |
| ProblemRoutes.UploadPaths | backend/routes/problems.js:138 | one stored path per upload, `uploads/<uuid>_<name>`, in upload order |
| ProblemRoutes.ExtensionOf | backend/routes/problems.js:25 | a name `base.ext` with a non-empty base has the lower-cased `ext` as its extension |
| ProblemRoutes.DotFileRefused | backend/routes/problems.js:24-31 | a name whose only dot leads it has no extension and is refused |
| ProblemRoutes.AcceptedIff | backend/routes/problems.js:24-31 | an upload is accepted exactly when its lower-cased text after the last non-leading dot is png, jpg, jpeg, gif or pdf |
| ProblemRoutes.CreateStatus | backend/routes/problems.js:126-136 | 401 for a visitor; 500 when multer refuses an upload; then 403 for a role other than technician or administrator; then 400 for an empty field; 201 exactly when every check passes |
| ProblemRoutes.CreatedProblemReads | backend/routes/problems.js:138-148 | a created problem reads back with the caller as author, the fields sent, the tags the getter makes of the text, and the upload paths in order |
| ProblemRoutes.Create | backend/routes/problems.js:126-155 | the answer is `CreateStatus`; uploads stay on disk once multer has run, even when the role or field check refuses; on 201 the new row is stored |
| ProblemRoutes.EditGate | backend/routes/problems.js:43-59 | 401 for a visitor; 404 for a signed-in user and a missing problem; allowed exactly for an administrator or the author of an existing problem; 403 exactly for any other signed-in user |
| ProblemRoutes.Reconcile | backend/routes/problems.js:189-214 | files removed are exactly the current ones the kept list leaves out; the new list holds the uploads and the kept (or the current) files |
| ProblemRoutes.ReconcileKeepAll | backend/routes/problems.js:192-208 | keeping every current file and uploading nothing removes nothing and changes nothing |
| ProblemRoutes.ReconcileOrder | backend/routes/problems.js:205-214 | the new list is the kept (or current) list followed by the uploads |
| ProblemRoutes.KeptListUnchecked | backend/routes/problems.js:193-205 | a kept list naming a file the problem never had is stored as given, and every current file is removed |
| ProblemRoutes.UpdatePlanResend | backend/routes/problems.js:192-216 | sending back the stored list unchanged, with no uploads, keeps the list and removes nothing |
| ProblemRoutes.UpdatedFieldsEmpty | backend/routes/problems.js:182-186 | a form with every field empty and no link leaves the problem as it was |
| ProblemRoutes.UpdateStatus | backend/routes/problems.js:176-224 | a refusal of `canEdit` (401, 404 or 403) comes back unchanged; past the gate, 200 exactly when multer accepts every upload and both file lists parse, 500 otherwise |
| ProblemRoutes.Update | backend/routes/problems.js:176-224 | the answer is `UpdateStatus`; on 200 the saved row has the updated fields and the reconciled list, and exactly the dropped files are unlinked |
| ProblemRoutes.ApplyFields | backend/routes/problems.js:182-186 | non-empty title, description, category and tags overwrite the old ones; a given link always does |
| ProblemRoutes.ReconcileFiles | backend/routes/problems.js:189-216 | when both lists parse, the stored list becomes the plan's list and the dropped files leave the disk; otherwise nothing is unlinked |
| ProblemRoutes.DeleteStatus | backend/routes/problems.js:227-249 | 401 for a visitor; 403 for any other role than administrator; 404 for a missing problem; 500 when its file list does not parse; 200 exactly otherwise |
| ProblemRoutes.Delete | backend/routes/problems.js:227-255 | the answer is `DeleteStatus`; on 200 the row is gone and none of its files is left on disk |
| ProblemRoutes.LowerTaggedInSnoc | backend/routes/problems.js:67-70 | a lower-cased tag occurs in a list of problems exactly when it occurs in all but the last or in the last |
| ProblemRoutes.AllLowerTagsIn | backend/routes/problems.js:67-70 | the gathered tags are exactly the lower-cased tags of some problem |
| ProblemRoutes.AllLowerTagsLower | backend/routes/problems.js:69 | every gathered tag is lower-case |
| ProblemRoutes.AllCategoriesIn | backend/routes/problems.js:86-90 | the gathered categories are exactly the non-empty categories of some problem |
| ProblemRoutes.RawPiecesAreTags | backend/routes/problems.js:281-284 | the pieces the route cuts from the raw text are what the `tags` getter gives |
| ProblemRoutes.TaggedInSnoc | backend/routes/problems.js:280-285 | a tag occurs in a list of problems exactly when it occurs in all but the last or in the last |
| ProblemRoutes.AllRawTagsIn | backend/routes/problems.js:280-285 | the gathered raw tags are exactly the tags of some problem |
| ProblemRoutes.AddAll | backend/routes/problems.js:69 | adding each element to the Set gives the Set of the whole sequence |
| ProblemRoutes.DistinctTags | backend/routes/problems.js:62-78 | `GET /tags` answers ascending, each tag once, lower-case, and exactly the lower-cased tags some problem has |
| ProblemRoutes.AllCategoriesStep | backend/routes/problems.js:86-90 | one more problem adds its category to the Set when it is non-empty and new |
| ProblemRoutes.DistinctCategories | backend/routes/problems.js:81-97 | `GET /categories` answers ascending, each once, exactly the non-empty categories in use |
| ProblemRoutes.TagList | backend/routes/problems.js:272-292 | `GET /tags/list` answers each tag once, exactly the tags some problem has, neither lower-cased nor sorted |
| UsersRoutes.ListUsers | backend/routes/users.js:6-22 | 403 exactly for anyone but an administrator; an administrator gets 200 and every user, without the hash |
| UsersRoutes.GetUser | backend/routes/users.js:25-36 | 403 for anyone but an administrator; 404 for a missing user; 200 exactly otherwise, with that user without the hash |
| UsersRoutes.UpdateStatus | backend/routes/users.js:39-73 | 403 for anyone but an administrator; 404 for a missing user; 400 when the new name (if any) is held by another user or the new role (if any) is invalid; 200 exactly otherwise |
| UsersRoutes.UpdatedUserPassword | backend/routes/users.js:56-58 | a new password is the one that then checks; an empty one leaves the hash; the id never changes |
| UsersRoutes.UpdateKeepsNamesUnique | backend/routes/users.js:48-54 | an accepted update keeps every username held by one user only |
| UsersRoutes.UpdateCanDemoteLastAdmin | backend/routes/users.js:60-67 | the only administrator can be given another role, leaving no administrator |
| UsersRoutes.UpdateUser | backend/routes/users.js:39-73 | the answer is `UpdateStatus`; on 200 the saved user has the given name, password and role; a refusal stores nothing |
| UsersRoutes.DeleteStatus | backend/routes/users.js:76-88 | 403 for anyone but an administrator; 404 for a missing user; 400 for the last administrator; 200 exactly otherwise |
| UsersRoutes.DeleteKeepsAnAdmin | backend/routes/users.js:83-88 | an accepted delete leaves at least one administrator, one fewer only when an administrator was deleted |
| UsersRoutes.DeleteUser | backend/routes/users.js:76-96 | the answer is `DeleteStatus`; on 200 exactly that user is gone, otherwise nothing changes |
| AuthRoutes.Session.constructor | backend/routes/auth.js:40 | a new session holds no user |
| AuthRoutes.Login | backend/routes/auth.js:22-57 | the answer is 200, 400 or 401: 400 exactly when a field is missing; 200 exactly for an existing name with its password, and then the session holds the user; 401 for any other pair, with no user and the session untouched, and a message that tells an unknown name from a wrong password |
| AuthRoutes.Logout | backend/routes/auth.js:60-76 | 401 exactly without a signed-in user, with the session untouched; a signed-in user gets 200 and the session forgets the user |
| AuthRoutes.Me | backend/routes/auth.js:79-90 | 200 with the user without the hash exactly when the session's user exists; 401 with no body otherwise |
| AuthRoutes.RegisterStatus | backend/routes/auth.js:93-109 | 403 for anyone but an administrator; for an administrator, 201 exactly with all three fields, a valid role and an unused name, and 400 otherwise |
| AuthRoutes.RegisteredCanLogIn | backend/routes/auth.js:113-120 | a registered user can sign in with the password given at registration |
| AuthRoutes.Register | backend/routes/auth.js:93-127 | the answer is `RegisterStatus`; on 201 one user with the hashed password and the role is added; otherwise nothing |
| App.ReconnectDelay | backend/app.js:35-42 | gives up exactly after more than 10 retries; otherwise waits `retries * 1000` ms, capped at 5000 |
| App.ReconnectMonotone | backend/app.js:41 | waits never shrink while the strategy keeps trying |
| App.ReadyAfterIff | backend/app.js:48-65 | the flag is set after a run of events exactly when a `ready` was followed only by `connect`s, or the flag was set and only `connect`s came |
| App.RedisState.constructor | backend/app.js:28 | the flag starts cleared |
| App.RedisState.Handle | backend/app.js:48-65 | `ready` sets the flag, `error` and `end` clear it, `connect` leaves it |
| App.RedisState.Answer | backend/app.js:78-84 | 503 while the flag is clear, the route's own answer while it is set |
| App.AnswerAfterEvents | backend/app.js:48-84 | after a run of client events the gate passes requests on exactly when the last event other than `connect` was `ready`, and answers 503 otherwise |
| App.SetupCheck | backend/app.js:251-285 | 403 once an administrator exists, before any input check; with no administrator, setup goes on exactly with a name of 3 or more and a password of 6 or more, and answers 400 otherwise |
| App.ConfiguredWithAdmin | backend/app.js:234-238 | a table with an administrator reports itself configured |
| App.Setup | backend/app.js:251-321 | the answer is the check's refusal, 409 for a name in use, or 201 with one new administrator, after which the system is configured |
| App.VerifyCredentials | backend/app.js:111-125 | not found exactly when nobody holds the name; a bad password exactly when somebody does but the password does not match; verified exactly for a matching pair |
| App.CallerOf | backend/app.js:131-138 | a session's user is signed in exactly when the id still exists, with the role it has now |
| TagEditing.OptionTexts | frontend/src/pages/EditProblem.js:102-103 | each typeahead entry's text: a known tag, or the label of a new one |
| TagEditing.SelectTags | frontend/src/pages/EditProblem.js:100-110 | the selection holds each tag once, all lower-case, exactly the lower-cased entry texts |
| TagEditing.LowerAllConcat | frontend/src/pages/EditProblem.js:102-105 | lower-casing a concatenation lower-cases each part |
| TagEditing.OptionTextsConcat | frontend/src/pages/EditProblem.js:102-103 | the texts of a concatenation are the texts of each part |
| TagEditing.SelectTagsPrefix | frontend/src/pages/EditProblem.js:108 | more entries after a selection keep its tags at the front, in order |
| TagEditing.SelectTagsKeepsClean | frontend/src/pages/EditProblem.js:100-110 | selecting distinct lower-case tags gives them back unchanged |
| TagEditing.AddTyped | frontend/src/pages/EditProblem.js:112-122 | Enter appends the lower-cased text unless it is already there: the old list stays a prefix, at most one tag is added, no duplicates appear |
| TagEditing.AddTypedIdempotent | frontend/src/pages/EditProblem.js:120 | pressing Enter again with the same text changes nothing |
| TagEditing.RemoveTag | frontend/src/pages/EditProblem.js:132-134 | every tag equal to the removed one up to case goes; the others stay, in order |
| TagEditing.RemoveUndoesAdd | frontend/src/pages/EditProblem.js:112-134 | removing the tag Enter just added gives the list from before |
| FileNames.FileNameOfStored | frontend/src/pages/EditProblem.js:206-215 | the name shown for a stored upload is the name it was uploaded with, `_` included |
| FileNames.FileNameWithoutPrefix | frontend/src/pages/ProblemDetail.js:104-113 | a last path segment without `_` is shown as it is |
| FileNames.ExtensionAfterDot | backend/routes/problems.js:25 | a non-empty extension is the lower-cased text after the last dot, which is not the first character |
| FileNames.AfterLastDotStored | frontend/src/pages/ProblemDetail.js:83 | the text after the last dot of a stored path is the text after the last dot of the uploaded name |
| FileNames.StoredExtension | frontend/src/pages/ProblemDetail.js:82-90 | the extension the client reads off a stored path is the one the upload filter checked |
| FileNames.AcceptedUploadPreview | frontend/src/pages/ProblemDetail.js:82-90 | every accepted upload gets a preview, the PDF viewer exactly for pdf |
| ProblemDetail.CanEditAgreesWithServer | frontend/src/pages/ProblemDetail.js:72-74 | the edit button shows exactly when the server's `canEdit` lets the same user through |
| ProblemDetail.CanDeleteAgreesWithServer | frontend/src/pages/ProblemDetail.js:73-75 | the delete button shows exactly when the server would delete the problem for that user |
| ProblemDetail.ViewUrl | frontend/src/pages/ProblemDetail.js:92-96 | the link is the origin, the client's files route `/api/problems/files/`, then the stored path |
| ProblemDetail.ViewUrlInjective | frontend/src/pages/ProblemDetail.js:92-96 | different attachments get different links |
| ProblemDetail.DownloadExtendsView | frontend/src/pages/ProblemDetail.js:98-102 | the download link is the view link followed by `?download=true` |
| EditProblem.EditRequest | frontend/src/pages/EditProblem.js:150-171 | nothing is sent exactly when a field is empty or no tag is selected; a request always carries the kept list and the link |
| EditProblem.EditRequestReachesServer | frontend/src/pages/EditProblem.js:158-171 | clean tags reach the server as the same list; the stored files become the kept ones then the uploads; exactly the current files left out are removed |
| EditProblem.TypedCommaSplits | frontend/src/pages/EditProblem.js:112-122 | a tag typed with a comma is one tag in the form and two on the server |
| EditProblem.EditForm.Load | frontend/src/pages/EditProblem.js:44-54 | the form holds the problem's fields, its tags lower-cased, its files, and an empty link for none |
| EditProblem.EditForm.HandleTagSelect | frontend/src/pages/EditProblem.js:100-110 | the tags become the selection's tags; nothing else changes |
| EditProblem.EditForm.HandleTagKeyDown | frontend/src/pages/EditProblem.js:112-130 | Enter with text adds it once and clears the input; other keys change nothing |
| EditProblem.EditForm.RemoveTag | frontend/src/pages/EditProblem.js:132-134 | the tags lose every case variant of the removed one; nothing else changes |
| EditProblem.EditForm.RemoveExistingFile | frontend/src/pages/EditProblem.js:140-142 | the attachment at that position leaves the kept list; nothing else changes |
| EditProblem.EditForm.Submit | frontend/src/pages/EditProblem.js:144-171 | the request is the form's request; without one the error message is set |
| EditProblem.RemovedFileIsUnlinked | frontend/src/pages/EditProblem.js:140-171 | dropping one attachment and saving makes the server remove exactly that file and keep the rest |
| CreateProblem.FinalCategory | frontend/src/pages/CreateProblem.js:167-172 | the category sent is the typed name or the chosen entry, and is empty only when both are |
| CreateProblem.CreateRequest | frontend/src/pages/CreateProblem.js:175-188 | nothing is sent exactly when a field is empty or no tag is selected; a request carries no kept list |
| CreateProblem.CreateRequestAccepted | frontend/src/pages/CreateProblem.js:175-188 | a request the form lets through passes the server's field check, so a technician or administrator gets 201 |
| CreateProblem.CreateForm.constructor | frontend/src/pages/CreateProblem.js:11-26 | the form starts empty, with no new category asked for |
| CreateProblem.CreateForm.HandleChange | frontend/src/pages/CreateProblem.js:100-116 | choosing "Outra" sets the new-category flag; another category clears it and the typed name; the named field takes the value |
| CreateProblem.CreateForm.HandleNewCategoryChange | frontend/src/pages/CreateProblem.js:118-120 | the typed name becomes the new category; nothing else changes |
| CreateProblem.CreateForm.HandleTagSelect | frontend/src/pages/CreateProblem.js:122-132 | the tags become the selection's tags; nothing else changes |
| CreateProblem.CreateForm.HandleTagKeyDown | frontend/src/pages/CreateProblem.js:134-152 | Enter with text adds it once; other keys change nothing |
| CreateProblem.CreateForm.RemoveTag | frontend/src/pages/CreateProblem.js:154-156 | the tags lose every case variant of the removed one; nothing else changes |
| CreateProblem.CreateForm.Submit | frontend/src/pages/CreateProblem.js:162-188 | the request is the form's request, with the final category; without one the error message is set |
| CreateProblem.FinalCategoryInValidForm | frontend/src/pages/CreateProblem.js:103-110 | the typed name is sent exactly when "Outra" is chosen and a name typed; with none typed, the submit handler sends "Outra" itself (the `required` attribute of the new-category input stops that submit in a browser) |
| Home.FilterProblems | frontend/src/pages/Home.js:42-65 | the shown problems are exactly those in the category, with all selected tags, matching the term, in list order; no filter shows every problem |
| Home.ToggleTag | frontend/src/pages/Home.js:67-73 | a selected tag is dropped and the others keep their order; another is appended at the end; no duplicates appear |
| Home.ToggleTwice | frontend/src/pages/Home.js:67-73 | clicking an unselected tag twice gives the selection from before |
| Home.HomePage.constructor | frontend/src/pages/Home.js:14-29 | the page starts with no filter and shows every fetched problem, which is what the filters select |
| Home.HomePage.Refresh | frontend/src/pages/Home.js:42-65 | the shown list becomes the visible problems under the current filters |
| Home.HomePage.HandleTagClick | frontend/src/pages/Home.js:67-73 | the selected tags are toggled; nothing else changes |
| Home.HomePage.HandleCategoryChange | frontend/src/pages/Home.js:75-77 | the category becomes the one chosen; nothing else changes |
| Home.HomePage.ClearFilters | frontend/src/pages/Home.js:79-83 | every filter is cleared, so every problem is visible |
| TagList.SearchTags | frontend/src/pages/TagList.js:41-48 | every tag for an empty term; otherwise exactly those whose lower-cased form includes the lower-cased term, in order |
| TagList.ProblemsWithTag | frontend/src/pages/TagList.js:51-57 | exactly the problems holding the selected tag, in order; none with no tag selected |
| TagList.CountProblemsByTag | frontend/src/pages/TagList.js:60-62 | at most the number of problems, and zero exactly when no problem has the tag |
| TagList.CountIsSelection | frontend/src/pages/TagList.js:51-62 | the count shown for a tag is the number of problems listed when it is selected |
| TagList.Swap | frontend/src/pages/TagList.js:199 | two positions exchange their strings, the same strings remain |
| TagList.InsertLast | frontend/src/pages/TagList.js:199 | one insertion step extends the descending prefix by one, the same strings remain |
| TagList.SortByKeyDescending | frontend/src/pages/TagList.js:198-199 | the array is sorted in place by descending count and holds the same strings |
| TagList.PopularTags | frontend/src/pages/TagList.js:198-200 | the searched tags are sorted in place by count, the first six shown, and no tag left out has more problems than one shown |
| TagList.TagCardCount | frontend/src/pages/TagList.js:202-237 | a card lists at most three problems, and with the "more" line it accounts for the tag's count |
| CategoryList.OfCategory | frontend/src/pages/CategoryList.js:29 | exactly the problems of that category, in order |
| CategoryList.GroupByCategory | frontend/src/pages/CategoryList.js:27-30 | the grouping has one entry per fetched category, each holding that category's problems |
| CategoryList.GroupingPartitions | frontend/src/pages/CategoryList.js:27-30 | every fetched category has an entry, and each problem of a fetched category sits in its own entry and no other |
| CategoryList.Selected | frontend/src/pages/CategoryList.js:63 | the entry of the selected category, or none |
| CategoryList.SelectedOfGrouping | frontend/src/pages/CategoryList.js:62-63 | a fetched category shows exactly its problems, and one not fetched shows none |
| CategoryList.CategoryCard | frontend/src/pages/CategoryList.js:148-167 | a card lists at most five problems, and with the "more" line it accounts for the category's size |
| Sidebar.LinksAgreeWithServer | frontend/src/components/Sidebar.js:16-18 | the create link shows exactly for the roles the server lets create, the users link exactly for administrators, neither when signed out |
| Sidebar.RoleLabel | frontend/src/components/Sidebar.js:75 | "Administrador" exactly for an administrator, "Técnico" exactly for a technician, "Usuário" otherwise |
| Sidebar.RoleLabelTellsRolesApart | frontend/src/components/Sidebar.js:75 | users of different roles see different labels |
| AppShell.Render | frontend/src/App.js:96-145 | waiting while loading, the login page exactly when signed out, the create and edit pages exactly for technicians and administrators, user management exactly for administrators |
| AppShell.EditRouteBlocksPlainAuthor | frontend/src/App.js:127-134 | an author with the `user` role sees the edit button and the server would accept the edit, but the route sends the author home |
| AppShell.Shell.constructor | frontend/src/App.js:41-43 | the app starts loading, signed out, with the sidebar collapsed exactly on a narrow window |
| AppShell.Shell.CheckAuth | frontend/src/App.js:52-61 | a 200 from `/api/auth/me` signs the user in; loading ends either way |
| AppShell.Shell.HandleLogout | frontend/src/App.js:87-94 | a successful logout signs the user out, so every route shows the login page |
| AppShell.Shell.ToggleSidebar | frontend/src/App.js:83-85 | the sidebar flips; nothing else changes |
| AppShell.Shell.HandleResize | frontend/src/App.js:70-73 | the sidebar is collapsed exactly on a window at most 768 pixels wide |

## Left out

- Networking, rendering and the request/response plumbing of Express and React are not modelled. Handlers are functions or methods from the parsed request to a status and a body.
- Asynchrony and concurrency are not modelled. Each handler runs to completion on its own, so two requests never interleave.
- The Redis client, express-session, passport's session handling and cookie settings are left out. A session is the id of its user, and the client's events are the event sequence.
- bcrypt is not modelled. A hash is an abstract key-derivation function applied to the password and a salt, and the salt is a parameter.
- `uuidv4()` and the clock are parameters. The uuid drawn for an upload comes with the upload; `created_at` is a given integer.
- Database errors (every 500 answer from a thrown exception) are not modelled, except a stored attachment list that does not parse.
- `GET /api/problems`, `GET /api/problems/:id` and `GET /api/problems/categories/list` are not modelled. They are plain ORM queries: the tag filter uses SQL `LIKE`, the author is joined in, and `DISTINCT` runs in the database.
- The static route `/api/files` (backend/app.js:324), which serves the upload directory, is left out: it is file serving and decides nothing the model states.
- The links the problem and edit pages build under `/api/problems/files/` are modelled as written. No server handler serves that path (the uploads are served under `/api/files`), so these links do not reach a file, and the model does not state that they do.
- The health check, the session debug middleware and the error middleware of the application module are left out. They log and report; none changes state.
- `MAX_FILE_SIZE` is left out: multer rejects an oversized file before the handler, just as it rejects a refused extension.
- `path.join` normalisation is not modelled. Stored paths are `uploads/<uuid>_<name>` with a `/`, and the clean-up routes name the same files.
- `toLowerCase` maps only the ASCII letters A-Z. Strings are sequences of Unicode scalar values, not UTF-16 code units. So `StringSort` orders by scalar value where `sort()` orders by code unit; the two differ only when a character above U+FFFF meets one between U+E000 and U+FFFF.
- JSON is modelled for arrays of strings only. Other JSON values, and `\u` escapes that name a surrogate code unit, are treated as a parse failure.
- The YouTube link regular expressions and the preview they drive are left out. They only change what is displayed.
- The error messages the pages show after a failed request are left out, as are navigation and the loading flags of the pages.
- The login page, the user management page and the database initialisation script are context, not core, and are not part of this model.
- TagList's `handleTagClick` and `clearSelectedTag`, and CategoryList's `handleCategorySelect` and `clearSelectedCategory`, are plain assignments of the selection. The model uses the selection as a parameter.
- The create form's typeahead input text (`tagInputValue`) is not kept in `CreateProblem.CreateForm`; the edit form keeps it.
- TagList.SortByKeyDescending: does not state the order among tags with the same count. The ECMAScript sort keeps it stable; the model states only descending counts and the same strings.
- TagList.PopularTags: does not state which of several tags with the same count is shown when the sixth place is tied, for the same reason.
