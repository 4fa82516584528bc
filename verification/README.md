# SnapZoška core, modelled in Dafny

This project models the data contract of the SnapZoška social app: its
server actions (likes, posts, profiles, the debug report), its four route
handlers (profile-image update, generic upload, profile-image check, user
lookup by email) and four small client state machines (edit-profile dialog,
theme, bottom navigation bar, auth guard).

The database is an immutable value `Store.Store`:

- users and posts are sequences in table order, because `findFirst` and
  `orderBy` ties depend on it;
- profiles are a map keyed by user id;
- likes and saved posts are sets of `(userId, postId)` pairs, since the code
  looks a like up by that compound key.

Each operation is a pure function from a store (and its inputs) to the new
store and a tagged result. Store calls inside one operation are numbered
from 1. A `Store.Fault` names the call that fails and its message, so
partial effects are modelled. One example is `togglePostLike` writing the
like and then failing to count.

JavaScript values that can be `undefined`, `null` or a string are
`Values.JsString`, and truthiness is a non-empty string. The session is an
`Option<Session>` input whose user, and whose `id` key, may be missing.

Two standards are modelled where the profile-image route builds its URL:

- base64 as in section 4 of RFC 4648, with a decoder and the round-trip
  proof `Base64.DecodeEncode`;
- the `data:` URL of RFC 2397, with a parser and the round trip
  `DataUrl.ParseBuild`.

Failures are reported in two ways, and the model keeps both:

- The actions in `like.ts` and `profile.ts` and the test-post action in
  `debug.ts` return a record with `success: false`. They return
  `Store.Answer`, which can be `Failed`.
- The actions in `post.ts` and the debug report throw a new `Error`. They
  return `Store.Outcome`, which can be `Threw`.

The like actions put `String(error)` in their record, which is
`Store.ErrorString`: the error's name, ": " and its message. The profile
and debug actions and the profile-image and check-image routes use
`error.message`, the fault's message alone. The actions in `post.ts`
throw their own fixed message whatever the store error was.

## Model

| member | source | states |
|---|---|---|
| Store.FirstWhere | src/app/api/user/route.ts:15-18 | the first element in table order that satisfies the condition, or none exactly when no element does |
| Store.FindUser | src/app/api/profile/check-image/route.ts:15-18 | `user.findUnique({where: {id}})`: a user row with that id, or none exactly when no row has it |
| Store.FindUserByEmail | src/app/api/user/route.ts:15-18 | `user.findUnique({where: {email}})`: a user row with that email, or none exactly when no row has it |
| Store.FindPost | src/app/actions/like.ts:81-91 | `post.findUnique({where: {id}})`: a post row with that id, or none exactly when no row has it |
| Store.Toggle | src/app/actions/like.ts:29-48 | delete-if-present-else-create on the like set: the pair is present afterwards exactly when it was absent before, and no other pair changes |
| Store.ToggleTwice | src/app/actions/like.ts:29-48 | toggling the same pair twice restores the original like set |
| Store.ToggleCount | src/app/actions/like.ts:51-55 | a toggle moves the toggled post's like count by exactly +1 (create) or -1 (delete) and leaves every other post's likes unchanged |
| Store.SomeLikeByIsKeyLookup | src/app/actions/post.ts:37 | "some like on the post has this userId" is the same as the compound-key lookup of the pair |
| Store.ErrorString | src/app/actions/like.ts:67-75 | `String(error)`: the name and the message joined by ": ", either alone when the other is empty; it always ends with the message and starts with the name |
| LikeActions.TogglePostLike | src/app/actions/like.ts:7-76 | empty ids are refused with "Missing required parameters" before the store is touched; success iff no store call fails; liked iff the pair is in the new like set; the count is the post-toggle count, old count ±1; every failure reports not liked and 0; a failed lookup or write changes nothing, a failed count keeps the write |
| LikeActions.TogglePostLikeTwice | src/app/actions/like.ts:28-48 | two successful toggles restore the store, report opposite `liked` values, and the second reports the original count |
| LikeActions.GetPostWithLikes | src/app/actions/like.ts:79-124 | a failed post lookup gives `String(error)`; an unknown post gives "Post not found"; a found post carries its live like count; `isLikedByUser` is false without a user id and is pair membership with one, and a failed pair lookup gives `String(error)`; it fails exactly when one of its store calls fails or the post is missing |
| LikeActions.GetPostLikeCount | src/app/actions/like.ts:127-139 | answers the number of like rows on the post unless the count call fails, in which case it returns `String(error)` |
| LikeActions.HasUserLikedPost | src/app/actions/like.ts:142-159 | an empty user id answers false without a store call; otherwise the answer is pair membership, or `String(error)`; it answers exactly when the user id is empty or the lookup succeeds |
| NewestFirst.Insert | src/app/actions/post.ts:13-15 | inserting into a createdAt-descending list keeps it descending and adds exactly that post |
| NewestFirst.Sort | src/app/actions/post.ts:13-15 | `orderBy: {createdAt: "desc"}`: the result is a permutation of the input that is createdAt-descending |
| NewestFirst.OwnedBy | src/app/actions/post.ts:109-110 | `where: {userId}`: keeps exactly the posts of that user, each with its multiplicity |
| PostActions.Annotate | src/app/actions/post.ts:24-37 | one feed entry carries the post, its author's name and image, its live like count, and liked iff the viewer id is present and the pair is a like |
| PostActions.AnnotateAll | src/app/actions/post.ts:24-37 | the mapped feed keeps the posts in order, one entry per post, each annotated as above |
| PostActions.FetchPosts | src/app/actions/post.ts:10-46 | throws "Could not fetch posts" iff the query fails; otherwise every post appears exactly once, newest first, each entry carrying its author's name and image from the owner's user row, its live like count and the viewer's like status |
| PostActions.FetchPostsByUserId | src/app/actions/post.ts:107-130 | exactly that user's posts, newest first, each with its author's name and image, its like count and never marked liked; throws "Could not fetch posts" iff the query fails |
| PostActions.OwnedMembers | src/app/actions/post.ts:107-115 | a reordering of `where: {userId}` holds exactly the posts of the table owned by that user |
| PostActions.ReadsAgreeWithToggle | src/app/actions/like.ts:7-159 | after a successful `togglePostLike`, `hasUserLikedPost` answers its `liked`, and `getPostLikeCount` and `getLikeCount` answer its `likeCount`; `toggleLike` makes the same change and returns the same `liked` |
| PostActions.PostWithLikesAgreesWithFeed | src/app/actions/like.ts:79-124 | every post of the table has an entry in the `fetchPosts` feed, and `getPostWithLikes` of that post gives the entry's post, like count and liked status for the same viewer |
| PostActions.FeedHasRow | src/app/actions/post.ts:12-37 | every row of the post table has an entry in the `fetchPosts` feed |
| PostActions.PostWithLikesOfRow | src/app/actions/like.ts:82-113 | in a store with unique post ids, `getPostWithLikes` of a row's id finds that very row, with its live like count and the viewer's like status |
| PostActions.ToggleLike | src/app/actions/post.ts:49-89 | returns true iff the pair was absent and is now present; only that pair changes; a failed store call throws "Could not toggle like" and writes nothing |
| PostActions.ToggleLikeAgreesWithStore | src/app/actions/post.ts:63-84 | `toggleLike` makes the same change to the like set as the shared delete-or-create toggle that `togglePostLike` makes |
| PostActions.GetLikeCount | src/app/actions/post.ts:92-104 | returns the number of like rows on the post; throws "Could not get like count" iff the call fails |
| PostActions.CreatePost | src/app/actions/post.ts:133-148 | appends exactly one post with the given owner, image URL and caption; it throws "Could not create post" and writes nothing when the call fails, the id is taken or the owner is unknown; the store invariants are preserved |
| ProfileActions.Column | src/app/actions/profile.ts:39-40 | a provided string-or-null value is stored as is, with null as no value |
| ProfileActions.Merge | src/app/actions/profile.ts:39-41 | on an existing profile, bio and location are replaced whenever provided (null included) and kept when undefined; interests are replaced when provided (an empty list included) and kept otherwise |
| ProfileActions.Fresh | src/app/actions/profile.ts:46-53 | a new profile takes bio and location only when non-empty, else null, and the interests given or `[]` |
| ProfileActions.UpdateProfile | src/app/actions/profile.ts:16-70 | no session or another user's id gives "Unauthorized" and no write; a store failure, or creating a profile for a user with no user row, gives the "Failed to update profile: " prefix and no write; success, which happens exactly when neither occurs, sets exactly the caller's profile, by merge or by creation, and changes nothing else |
| ProfileActions.UpdateProfileFramesOthers | src/app/actions/profile.ts:28-54 | whatever the outcome, no other user's profile appears, disappears or changes |
| ProfileActions.EmptyBioDependsOnPath | src/app/actions/profile.ts:39-49 | an empty bio becomes null when a profile is created but is stored as "" when one is updated |
| Values.OrNull | src/app/actions/profile.ts:49-50 | `v \|\| null` keeps exactly the non-empty strings |
| Values.FromColumn | src/app/api/profile/check-image/route.ts:32 | a nullable column reads as null or as its string, never as undefined |
| Base64.CharOf | src/app/api/profile/update-image/route.ts:56 | every sextet has an alphabet character, and decoding that character gives the sextet back |
| Base64.EncodeQuantum | src/app/api/profile/update-image/route.ts:56 | three bytes encode to four alphabet characters |
| Base64.Encode | src/app/api/profile/update-image/route.ts:56 | the encoding has length 4·⌈n/3⌉ and uses only alphabet and padding characters |
| Base64.QuantumRoundTrip | src/app/api/profile/update-image/route.ts:56 | a full quantum decodes back to its three bytes |
| Base64.DecodeEncode | src/app/api/profile/update-image/route.ts:56 | decoding the encoding of any byte sequence gives it back |
| DataUrl.Build | src/app/api/profile/update-image/route.ts:56 | the URL starts with "data:", starts with "data:image/" for an image type, and has the length the type plus the encoded bytes give |
| DataUrl.ParseBuild | src/app/api/profile/update-image/route.ts:56 | parsing a built data URL gives back its media type and its bytes |
| UploadRules.Screen | src/app/api/profile/update-image/route.ts:42-51 | the size check comes before the type check: too large whatever the type, else not an image unless the type starts with "image/" |
| UploadRules.CapIsInclusive | src/app/api/profile/update-image/route.ts:42-45 | a file of exactly the cap passes the size check and one byte more fails it |
| UpdateImageRoute.SetImage | src/app/api/profile/update-image/route.ts:62-65 | only the rows with the caller's id get the new image; all other rows are unchanged |
| UpdateImageRoute.Post | src/app/api/profile/update-image/route.ts:14-79 | the checks run in order: 401 without an id key, 400 with no file, 400 too large (2 MB), 400 not an image. On acceptance the returned URL is the data URL of the file and only the caller's `image` changes. A failed update, or one whose row is missing, is a 500 carrying the error's message, with no write. The store invariants are preserved |
| UpdateImageRoute.StoredImageRoundTrip | src/app/api/profile/update-image/route.ts:54-72 | the returned image URL parses back to the uploaded type and bytes |
| UploadRoute.Post | src/app/api/upload/route.ts:5-85 | 401 without a session user, then 400 no file, 400 too large (5 MB), 400 not an image; without a cloud name a valid file gets the placeholder URL; otherwise a stored reply gives exactly its secure URL and any other reply a 500 |
| UploadRoute.IdNotRequired | src/app/api/upload/route.ts:10-14 | a session user without an `id` key is accepted here, though the profile-image route refuses it |
| CheckImageRoute.IsBase64 | src/app/api/profile/check-image/route.ts:25 | `isBase64` is undefined without an image, and true exactly when the image starts with "data:image/" |
| CheckImageRoute.Get | src/app/api/profile/check-image/route.ts:6-40 | 401 without a truthy session id, 500 on a failed lookup, 404 for an unknown user; it succeeds exactly when none of these occurs, and then reports the stored image, `isBase64` as `IsBase64` of that image (undefined for a null image), and whether it equals the session image; it never writes |
| CheckImageRoute.StoredImageIsBase64 | src/app/api/profile/check-image/route.ts:25 | an image the profile-image route has stored is reported as base64 by the check route |
| UserRoute.Project | src/app/api/user/route.ts:19-24 | the reply has exactly the id, name, email and image of the user |
| UserRoute.EmailIdentifiesUser | src/app/api/user/route.ts:15-18 | with unique emails, a user is determined by its email |
| UserRoute.Get | src/app/api/user/route.ts:4-37 | a missing email gives 400 before any lookup, a failed lookup 500 "Internal server error", no match 404; it succeeds exactly when an email is given, the lookup works and some user has that email, and the reply is the projection of that user |
| Text.Contains | src/app/actions/debug.ts:30-34 | true exactly when the needle occurs somewhere in the string |
| Text.ToLower | src/app/actions/debug.ts:30-34 | lower-cases character by character, keeping the length |
| Text.BeforeFirst | src/app/actions/debug.ts:52 | `split('@')[0]`: the longest prefix without an '@' |
| DebugActions.DisplayName | src/app/actions/debug.ts:52 | the name if non-empty, else the email's text before the first '@' if non-empty, else "Unknown"; never empty |
| DebugActions.RowOf | src/app/actions/debug.ts:49-60 | a report row keeps the post's fields, applies the "No email" and "Missing image URL" fallbacks, and counts the post's like and saved rows |
| DebugActions.CheckRows | src/app/actions/debug.ts:42-61 | one row per post in order, flagged iff the image URL or owner id is empty, and in createdAt-descending order when the posts are |
| DebugActions.FlaggedIdsCount | src/app/actions/debug.ts:39-47 | the collected ids of flagged rows are as many as the flagged rows |
| DebugActions.CountFlagged | src/app/actions/debug.ts:39-47 | the counter equals the length of the id list, which lists the ids of the flagged rows in row order |
| DebugActions.JackDoylePosts | src/app/actions/debug.ts:30-34 | an order-preserving subsequence holding exactly the posts whose author's lower-cased name contains "jack doyle" or email contains "jack" or "doyle" |
| DebugActions.NewestPosts | src/app/actions/debug.ts:16-25 | all posts, each once, newest first |
| DebugActions.DebugPosts | src/app/actions/debug.ts:11-98 | throws with the "Failed to debug posts: " prefix iff a call fails. Otherwise `totalPosts` is the post count and the rows are the report rows of the posts newest first, each flagged exactly when its image URL or owner id is empty. The missing-data counter equals both the flagged-row count and the issue-list length. The test-user rows are the filter's and their count is their length. All users are listed |
| DebugActions.Report | src/app/actions/debug.ts:79-93 | the returned object: the post count, the newest-first report rows with their flags, the counter equal to both the flagged-row count and the issue-list length, the test-user rows and their count, and the user list |
| DebugActions.FirstCandidate | src/app/actions/debug.ts:105-114 | the first user in table order whose name contains "jack doyle" or whose email contains "jack", "doyle" or "admin", or none when no user does |
| DebugActions.CreateTestPost | src/app/actions/debug.ts:100-153 | no candidate gives "Could not find Jack Doyle or admin user" and no write; a failed call or a taken post id gives the "Failed to create test post: " prefix with the error's message and no write; it succeeds exactly when none of these occurs, appending exactly one post owned by the candidate with the fixed image URL and caption; the store invariants are preserved |
| EditProfileModal.Open | src/components/EditProfileModal.tsx:44-48 | the dialog starts with the current bio or "", no file, not loading and no error |
| EditProfileModal.HandleImageChange | src/components/EditProfileModal.tsx:59-85 | no file changes nothing; over 2 MB sets the size message and keeps the file; a non-image sets the type message and keeps the file; otherwise the file is taken and the error cleared |
| EditProfileModal.DialogScreensLikeRoute | src/components/EditProfileModal.tsx:64-76 | the dialog takes exactly the files the profile-image route accepts and reports "too large" exactly when the route would |
| EditProfileModal.UploadError | src/components/EditProfileModal.tsx:98-128 | an upload is an error unless the route answered with a non-empty URL; the route's own message is shown when it has one, "Upload failed with status: " and the status code when it has none, and the fixed upload-failed text for an empty URL; no error message is empty |
| EditProfileModal.UploadStep | src/components/EditProfileModal.tsx:124-141 | without a picked file nothing is sent; otherwise the store is the route's and the thrown message is `UploadError` of the route's reply, so the step fails exactly when the route does, with no write |
| EditProfileModal.HandleSubmit | src/components/EditProfileModal.tsx:111-160 | does nothing without an id key. Otherwise loading ends false and the dialog closes exactly when both calls succeed. A failed upload skips the profile update, writes nothing and shows its message. After a good upload the store is the bio-only profile update run on the store the upload left, so a failed profile update keeps the new image, leaves the profiles alone and shows its error or the fixed text. Posts, likes, saved posts, other users' profiles and other users' rows never change; location and interests are kept |
| EditProfileModal.PickedImageIsSaved | src/components/EditProfileModal.tsx:111-152 | a file the dialog takes, saved by an existing signed-in user with no store failure, closes the dialog, and the stored image reads back as that file |
| Text.Decimal | src/components/EditProfileModal.tsx:100 | a status code renders as decimal digits without a leading zero |
| Text.DecimalRoundTrip | src/components/EditProfileModal.tsx:100 | reading the rendered digits back gives the number |
| Theme.InitialMode | src/components/ThemeProvider.tsx:14-16 | the stored mode if present and non-empty, else "light" |
| Theme.Mount | src/components/ThemeProvider.tsx:14-28 | after mounting, the persisted value equals the mode |
| Theme.Flip | src/components/ThemeProvider.tsx:19-20 | "light" becomes "dark" and any other value becomes "light" |
| Theme.ToggleTheme | src/components/ThemeProvider.tsx:18-28 | the mode flips and the persisted value equals the new mode |
| Theme.ToggleTwice | src/components/ThemeProvider.tsx:19-20 | two toggles return to "light" or "dark", but turn any other stored mode into "dark" |
| Theme.PaletteFor | src/components/ThemeProvider.tsx:30-44 | background "#ffffff" and text "#000000" in light mode, "#121212" and "#ffffff" in any other mode; the text never matches the background |
| Theme.ToggleSwapsPalette | src/components/ThemeProvider.tsx:18-44 | between "light" and "dark", a toggle changes the palette and a second toggle restores it |
| NavBar.Interpolate | src/components/NavBar.tsx:27 | a template literal renders undefined and null as their names and a string as itself |
| NavBar.Links | src/components/NavBar.tsx:24-41 | 6 entries when signed in and 7 otherwise, with their pages in order; each has exactly one of a path and an action; both lists end with the theme toggle; sign-out is offered iff signed in |
| NavBar.ActiveIndex | src/components/NavBar.tsx:49 | the index of the first entry whose path is the current path, or -1 when none is |
| NavBar.Selected | src/components/NavBar.tsx:49-54 | the first entry whose path is the current path when there is one, with no earlier entry matching, else 0 |
| NavBar.Choose | src/components/NavBar.tsx:55-62 | an entry's action runs if it has one; otherwise it navigates to a non-empty path, and an entry with neither does nothing |
| NavBar.ChoosingActiveStays | src/components/NavBar.tsx:49-62 | choosing the highlighted entry of a page that has one navigates back to that page |
| NavBar.SignInPageHighlight | src/components/NavBar.tsx:24-54 | the sign-in page highlights entry 4 for a visitor; a signed-in user has no entry for it and sees "Domov" selected |
| NavBar.ActionsNeverActive | src/components/NavBar.tsx:30-49 | entries that run an action have no path, so they are never active |
| AuthGuard.Effect | src/components/AuthGuard.tsx:16-21 | pushes "/auth/prihlasenie" iff the status is unauthenticated and no redirect has started, and then latches the redirect |
| AuthGuard.Render | src/components/AuthGuard.tsx:23-28 | the checking text shows iff the status is loading or a redirect has started; otherwise the children render |
| AuthGuard.Run | src/components/AuthGuard.tsx:16-28 | over any sequence of statuses, at most one navigation is pushed, always to the sign-in page, and once redirecting the guard stays redirecting |
| AuthGuard.RedirectsIffUnauthenticated | src/components/AuthGuard.tsx:16-21 | from a fresh guard, a navigation is pushed exactly when some reported status is unauthenticated |
| AuthGuard.FirstUnauthenticatedRenderShowsChildren | src/components/AuthGuard.tsx:28 | the first render with status unauthenticated still shows the children, because the effect runs after it |

## Left out

- Prisma, its connection and its query engine are replaced by the store value. Thrown store errors are the `Fault` parameter and its message.
- `revalidatePath`, `console` logging and next-auth's `getServerSession`, `getSession`, `useSession`, `update`, `signIn` and `signOut` are framework plumbing. The session is an input, and sign-out is a `NavBar.Action` value.
- The Cloudinary `fetch` in the upload route is a network call. Its reply is the `UploadRoute.CloudReply` parameter and the cloud name is an input.
- `FileReader`, the image preview, `window.location.reload` and `setTimeout` in the edit-profile dialog are browser effects with no data contract.
- `localStorage` I/O in the theme provider is left out. The stored value is a field of `Theme.ThemeState`.
- `handleBioChange` and `handleImageClick` in the edit-profile dialog only set the bio or click a hidden input.
- `onProfileUpdated` and `onClose` are callbacks. The dialog reports whether it closed instead.
- A network error thrown by `fetch` itself in the dialog is not modelled. Such an error would show its own message.
- Timestamps are natural numbers. Posts with equal `createdAt` keep their table order, which the database does not promise.
- `updatedAt`, the row ids of likes and saved posts, and like timestamps are not modelled.
- Foreign-key checks on like rows are not modelled: a like may name an unknown user or post.
- `getPostWithLikes` returns the post row without the joined author row that `include: {user: true}` adds.
- PostActions.FetchPostsByUserId: an entry keeps the post, its author's name and image, the like count and `isLikedByUser`. The other columns of the joined `user` row, the `likes` array and `_count` that `...post` also spreads into each entry are not modelled. The like count carries the same information as `_count.likes`.
- A thrown value that is not an `Error` object is not modelled: every fault has a name and a message.
- `Store.ForeignKeyViolation`, `Store.UniqueViolation` and `Store.RecordNotFound` are representative strings. The real texts of the foreign-key, unique-key and missing-row errors come from the database engine.
- HTTP responses are reduced to a status code plus a body or an error string.
- Text.ToLower: lowercases ASCII letters only. JavaScript's `toLowerCase` and the database's case-insensitive match also fold non-ASCII letters.
- DebugActions.FirstCandidate: uses the same ASCII lowercasing for the database's `mode: 'insensitive'` match.
- Rendering, MUI markup and the pages, layouts and sign-in and sign-up views are display only. ProfileButton and the seed script are also left out.
- A saved-post toggle and handling of concurrent duplicate-like races do not exist in the code, so they are not modelled.
