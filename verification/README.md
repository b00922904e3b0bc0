# Media dashboard accounts and upload views: a Dafny model

This project models the pure logic inside the media dashboard's web front end and its account API:

- **Uploads page.** The search box filter (`handleSearch`) and the page state it updates. The placeholder icon chosen from a file's MIME type (`getFileIcon`). The short type label under each card.
- **Media viewer.** The list of video qualities offered for a file, and the fallback when the selected quality is not offered. The state when the modal opens, one fetch's effect on that state, and the video stream URL.
- **Account API.** `POST /auth/register`, `POST /auth/login`, the session lookup `getCurrentUser`, `GET /users/me` and `PUT /users/me`. They are modelled over a user table held as a sequence of records, and every response is stripped of `password_hash`.

Every operation is a pure function. A request body is a map from keys to JavaScript values, and truthiness, nullishness and `undefined` for absent keys are modelled exactly. Password hashing, password checking, token signing and token verification are function parameters. The API base URL is a parameter too.

Modules:

| file | module | contents |
|---|---|---|
| wrappers.dfy | Wrappers | `Option` |
| js.dfy | Js | JSON values, truthiness, `??`, field access |
| text.dfy | Text | `trim`, `toLowerCase`, `startsWith`, `includes`, `split(sep)[0]` |
| upload_search.dfy | UploadSearch | upload records, match test, filter, search state |
| file_kind.dfy | FileKind | icon classification and type label |
| media_viewer.dfy | MediaViewer | qualities, viewer state, stream URL |
| users.dfy | Users | user table, responses, `password_hash` stripping, first-match lookup |
| session.dfy | Session | token subject and session lookup |
| auth_routes.dfy | AuthRoutes | register and login |
| profile.dfy | Profile | show and edit the signed-in account |
| session_confusion.dfy | SessionConfusion | the session-confusion case, its effect on `PUT /users/me`, and the proof that the corrected lookup avoids it |

## Model

| member | source | states |
|---|---|---|
| Text.TrimEmptyIffBlank | frontend/src/app/dashboard/uploads/page.tsx:49 | `query.trim()` is empty exactly when every character of the query is ECMAScript whitespace |
| Text.IncludesIffOccurs | frontend/src/app/dashboard/uploads/page.tsx:57-59 | `includes` holds exactly when the query occurs at some position of the string (the empty query occurs everywhere) |
| Text.BeforeFirstUnique | frontend/src/app/dashboard/uploads/page.tsx:198 | any slash-free prefix that is followed by the separator or ends the string equals `split(sep)[0]` |
| UploadSearch.Matches | frontend/src/app/dashboard/uploads/page.tsx:56-59 | an upload matches exactly when the lowercased query occurs in its lowercased name, in its lowercased description when that is not null, or in one of its lowercased tags |
| UploadSearch.Filter | frontend/src/app/dashboard/uploads/page.tsx:55-60 | the filtered list holds exactly the uploads that match, each with its original multiplicity, and is no longer than the input |
| UploadSearch.FilterIsSubsequence | frontend/src/app/dashboard/uploads/page.tsx:55-61 | the filtered list is a subsequence of the uploads, so relative order is preserved |
| UploadSearch.HandleSearch | frontend/src/app/dashboard/uploads/page.tsx:47-62 | records the query. A whitespace-only query shows the full list. Otherwise the list shown is sound, complete and order-preserving for the lowercased untrimmed query |
| UploadSearch.NullDescriptionMatchesByNameOrTag | frontend/src/app/dashboard/uploads/page.tsx:58 | an upload with a null description matches exactly when its name or one of its tags contains the query |
| UploadSearch.SurroundingSpacesTakePart | frontend/src/app/dashboard/uploads/page.tsx:49-54 | the query " cat" is not blank, and its leading space is part of the match, so an upload named "cat" with no description and no tags is hidden |
| UploadSearch.Refresh | frontend/src/app/dashboard/uploads/page.tsx:34-45 | a successful reload replaces both the full and the shown list with the fetched list and keeps the search text |
| UploadSearch.RefreshDropsFilter | frontend/src/app/dashboard/uploads/page.tsx:38-39 | after a reload, an upload the standing non-blank query does not match is shown, though searching again would hide it |
| FileKind.IconFor | frontend/src/app/dashboard/uploads/page.tsx:82-87 | image, music and video icons are chosen exactly for the prefixes `image/`, `audio/` and `video/`. The generic icon is chosen exactly when none of them applies |
| FileKind.PrefixesExclusive | frontend/src/app/dashboard/uploads/page.tsx:82-87 | no MIME string has two of the three prefixes, so the order of the tests never decides the icon |
| FileKind.TypeLabel | frontend/src/app/dashboard/uploads/page.tsx:198 | the label is a slash-free prefix of the MIME string, followed by a slash unless it is the whole string |
| FileKind.LabelIsMajorType | frontend/src/app/dashboard/uploads/page.tsx:198 | a MIME string starts with `major/` exactly when its label is `major` and something follows the label |
| FileKind.IconAgreesWithLabel | frontend/src/app/dashboard/uploads/page.tsx:82-87 | the image, music and video icons are shown exactly for labels "image", "audio" and "video" that are followed by a slash |
| MediaViewer.InitialViewer | frontend/src/app/dashboard/uploads/viewMedia.tsx:10-13 | the modal opens with 720p selected, only the original offered (so the selection is not among the offered qualities) and no image data |
| MediaViewer.AvailableQualities | frontend/src/app/dashboard/uploads/viewMedia.tsx:36-40 | the list starts with `original`. It contains 360p, 720p or 1080p exactly when that `variants` entry is truthy. It is strictly ordered and has length 1 to 4 |
| MediaViewer.ApplyResponse | frontend/src/app/dashboard/uploads/viewMedia.tsx:30-52 | an image sets only the data URL. A video replaces the list and keeps the selection when it is offered, otherwise falls back to `original`, and the selection is then always offered. Other types change nothing. The list keeps its shape |
| MediaViewer.OpenViewer | frontend/src/app/dashboard/uploads/viewMedia.tsx:19-58 | an empty file id, or a failed fetch, leaves the initial state. A successful fetch is applied to the initial state: an image sets only the data URL; a video offers the qualities its variants allow and plays 720p exactly when that variant is offered, the original otherwise. Every result has a well-formed quality list |
| MediaViewer.OpenedVideoQuality | frontend/src/app/dashboard/uploads/viewMedia.tsx:44-47 | a freshly opened video plays 720p when the 720p variant is offered and the original otherwise |
| MediaViewer.StreamUrl | frontend/src/app/dashboard/uploads/viewMedia.tsx:15-17 | the URL is the API base, then `/media/video/`, then the file id, then `?quality=` and the quality name, with the total length accounted for |
| MediaViewer.StreamUrlDeterminesQuality | frontend/src/app/dashboard/uploads/viewMedia.tsx:15-17 | two qualities of one file never share a stream URL |
| Users.Strip | backend/src/index.js:68 | the response record is the stored account minus its hash: putting the hash back gives the account again (the same destructuring recurs at lines 90, 106 and 138) |
| Users.StripLosesOnlyHash | backend/src/index.js:68 | removing `password_hash` loses nothing else: restoring the hash gives back the account, and two accounts respond alike exactly when they differ at most in the hash |
| Users.FirstWhere | backend/src/index.js:82 | `findFirst` returns the first position satisfying the condition, or nothing exactly when no account satisfies it |
| Users.NextId | backend/src/index.js:54-61 | the id given to a created account differs from every stored id |
| AuthRoutes.Register | backend/src/index.js:42-74 | 400 with no change when a field is missing or falsy. 409 "Email ou username já existe" with no change exactly when the email or the username is already used. 500 "Erro interno" with no change when every field is present but one the lookup or the hasher needs is not a string. Success exactly when all four fields are strings and neither email nor username is used; then exactly one account is appended with the given fields and the hashed password, and its stripped record and a token for its email are returned. Every failure leaves the table unchanged and sets no cookie |
| AuthRoutes.RegisterPreservesInvariant | backend/src/index.js:50-61 | registration keeps ids, emails and usernames unique and emails non-empty |
| AuthRoutes.Login | backend/src/index.js:76-96 | 400 when a credential is missing or falsy, or when no account has the identifier as email or username. 500 for a non-string identifier. For the first account the identifier names, a string password that verifies returns that account stripped with a token for its email, a string password that does not verify gives 400 "invalid credentials" with no token, and a truthy non-string password gives 500. Every failure sets no cookie |
| Session.Subject | backend/src/index.js:33-35 | a subject exists exactly when the cookie is non-empty and its token verifies to a non-empty subject |
| Session.CurrentUserIndex | backend/src/index.js:32-37 | no account without a subject; otherwise the first account whose email or username equals the subject, or none when no account does |
| Session.CurrentUserIndexByEmail | backend/src/index.js:32-37 | corrected lookup: no account without a subject; otherwise the first account whose email equals the subject, or none when no account does |
| Session.CurrentUserByEmail | backend/src/index.js:36 | with unique emails, the session belongs to the one account holding the subject as its email |
| Profile.Me | backend/src/index.js:103-108 | 401 when `getCurrentUser` (email or username lookup) finds no account; otherwise the account it finds, stripped of its hash |
| Profile.MeByEmail | backend/src/index.js:103-108 | the same route over the corrected, email-only lookup |
| Profile.Merge | backend/src/index.js:126-134 | names keep their old value for null or undefined and take a given string, including the empty string. Image and description keep theirs only for undefined, and null clears them. The hash changes only for a truthy password, to its hash. Id and email never change. A value of the wrong type is refused |
| Profile.UpdateAt | backend/src/index.js:116-143 | for a resolved row: 401 with no change without one. 409 "Username já em uso" exactly when a truthy new username differs from the current one and is taken. Success exactly when no 409 or failed lookup occurs, every value has an accepted type and the merged username is held by no other row; then only that row changes, to the merge, and the stripped row is returned. Every other outcome for a resolved row is 500 "Erro ao atualizar". Every failure leaves the table unchanged |
| Profile.UpdateMe | backend/src/index.js:111-144 | the route over `getCurrentUser` (email or username lookup): 401 with no change when it finds no account; 409 "Username já em uso" and success exactly as for the row it finds, and 500 "Erro ao atualizar" in every other case; on success only that row changes, to the merge, and the stripped row is returned. Every failure leaves the table unchanged |
| Profile.UpdateMeByEmail | backend/src/index.js:111-144 | the same route over the corrected, email-only lookup: 401 with no change when no row holds the subject as email; for the row that does, 409 "Username já em uso", success and 500 under the same conditions as `Profile.UpdateMe`; on success only that row changes, to the merge, and the stripped row is returned. Every failure leaves the table unchanged |
| Profile.UpdateMePreservesInvariant | backend/src/index.js:120-135 | a profile update keeps ids, emails and usernames unique and emails non-empty |
| Profile.PasswordChangesOnlyWhenTruthy | backend/src/index.js:133 | after a successful update the id is unchanged, and the stored hash differs only if a truthy password was sent |
| SessionConfusion.RegisterSessionResolvesToOtherAccount | backend/src/index.js:50-64 | with the account "alice" stored, the newcomer's registration with email "alice" succeeds. The as-written lookup resolves the new token to alice's row, while the corrected lookup resolves it to the new row |
| SessionConfusion.RegisterNewcomer | backend/src/index.js:42-74 | registering "mallory" with email "alice" next to the account "alice" succeeds, appends the new row with id 2 and issues a token for "alice" |
| SessionConfusion.NewcomerRewritesOtherPassword | backend/src/index.js:111-144 | the newcomer's `PUT /users/me` with a new password rewrites alice's password hash and leaves the newcomer's row alone; over the email-only lookup it rewrites the newcomer's own hash and leaves alice's row alone |
| SessionConfusion.RegisterThenSession | backend/src/index.js:64 | with the corrected lookup, the token issued at registration resolves to the new account |
| SessionConfusion.LoginThenSession | backend/src/index.js:86 | with the corrected lookup and the table invariant, the token issued at login resolves to the account that logged in |

## Left out

- Media upload, transcoding, thumbnails, variant generation, object storage and the `/media/*` routes are not modelled.
- `hashPassword`, `verifyPassword`, `createAccessToken` and `decodeToken`: bcrypt and JWT wrappers, passed in as functions. Salt randomness and token expiry are hidden inside them.
- `GET /health` and `POST /auth/logout`: they only answer `{ ok: true }` and clear the cookie.
- Cookies, CORS, environment configuration and logging.
- Express and Prisma I/O, including races between the uniqueness lookup and the insert.
- Prisma's scan order: `findFirst` is taken to return the earliest row in table order.
- The database schema is not part of this model. The username column is taken to be unique because `findUnique` is called on it (backend/src/index.js:121). An update that would duplicate a username therefore fails as a 500; only an empty username can get past the route's own check.
- Prisma filter objects: a JSON object sent where a string is expected would be read as a filter. The model treats every non-string value there as a failed query (500).
- Strings are sequences of Unicode scalar values. JavaScript strings are UTF-16 code-unit sequences, so lone surrogates and the code-unit positions `includes` and `startsWith` compare are not modelled.
- Number values are integers. Floating point and `NaN` truthiness are not modelled.
- Text.LowerChar: maps only ASCII and Latin-1 capitals. The full Unicode `toLowerCase`, including mappings that change length, is not modelled.
- `formatFileSize` and date formatting (floating-point division, `toFixed`, `toLocaleDateString`).
- React rendering and effect scheduling. The `cancelled` flag is left out because it only suppresses updates after the modal closes.
- The upload modal, `handleDelete` and the file helpers `apiGetAllFiles`, `apiPostFile`, `apiDeleteFile` and `apiGetFileById` are not modelled; a fetch's outcome is an input.
- `getVideoUrl` with a null file id: `UploadFile.id` is typed as a string, so the model's file id is always a string.
- The login page, dashboard page and dashboard layout: rendering and form submission only.

## Findings

| source | as written | input that shows it | evidently intended | confidence | as-written member | corrected member |
|---|---|---|---|---|---|---|
| backend/src/index.js:36 | Tokens are signed with the account's email, but `getCurrentUser` matches the subject against email OR username. Registration only compares emails with emails and usernames with usernames | Stored account username "alice". Register email "alice", username "mallory". The new token's subject is "alice", the session resolves to the stored account, and a `PUT /users/me` with a new password then rewrites the stored account's hash | A session resolves to the account its token was issued for | medium, not executed (assumes `findFirst` returns the older row) | SessionConfusion.NewcomerRewritesOtherPassword | SessionConfusion.RegisterThenSession |

`Session.CurrentUserIndex` is the lookup as written, and `Profile.Me` and `Profile.UpdateMe` use it, as the routes do. `Session.CurrentUserIndexByEmail` looks up the subject among emails only; `Profile.MeByEmail` and `Profile.UpdateMeByEmail` are the routes over it, and `SessionConfusion.RegisterThenSession` and `SessionConfusion.LoginThenSession` prove that it resolves every issued token to the account it was issued for.
