# Social network route handlers, modelled in Dafny

This project models the decision logic of a small Next.js social network:
- its server routes: conversations, messages, message status, notifications, posts, user search, presence, signup and upload;
- its id helpers and page middleware;
- three pieces of client logic: the create-post form, the conversation list page and the like button.

The document store becomes an immutable value (`Documents.Store`) holding one sequence per collection, in natural order:
- `findOne` is the first match;
- `updateOne` changes the first match;
- an insert appends a document whose `_id` is fresh (`Documents.FreshId`).

Each route handler is a pure function:
- A writing handler maps (session, request fields, store, clock readings) to `Handled(response, store')`.
- A read-only handler returns only its `Response`.

Inputs the program gets from outside become parameters:
- the session (`Option<Session>`);
- the clock (`now`, `later`);
- the random bytes and random suffix;
- the password hash, the email validator and the case-insensitive regular-expression match;
- the presigner;
- the file reader.

The module layout follows the program:

| module | file | models |
|---|---|---|
| `Documents` | documents.dfy | the collections' documents, lookups by `_id`, fresh ids, `_id` uniqueness |
| `Http` | http.dfy | sessions, JavaScript truthiness of request fields, status codes, replies |
| `Conversations` | conversations.dfy | conversation list (GET) and create-or-get (POST) |
| `Messages` | messages.dfy | sending a message |
| `MessageStatusRoute` | message_status.dfy | the status whitelist and overwrite |
| `Notifications` | notifications.dfy | the inbox aggregation |
| `Posts` | posts.dfy | the feed aggregation and post creation |
| `UserSearch` | user_search.dfy | user search |
| `Presence` | presence.dfy | the presence update |
| `Signup` | signup.dfy | the signup schema, duplicate checks, initial record, fallback username |
| `Upload` | upload.dfy | upload checks and object keys |
| `DbUtils` | db_utils.dfy | `toObjectId`, `normalizeId`, `normalizeIds` |
| `Middleware` | middleware.dfy | matcher, next-auth's early return, `authorized` callback, redirect |
| `CreatePostForm` | create_post_form.dfy | the create-post schema and `handleImageChange` |
| `MessagesPage` | messages_page.dfy | the username filter and row decisions |
| `PostLike` | post_like.dfy | the optimistic like toggle |
| `Seqs`, `Strings`, `Wrappers` | seqs.dfy, strings.dfy, wrappers.dfy | generic helpers with their own contracts: first match, count, filter, insertion sort, split/join, decimal rendering |

Some things the proofs bring out about the code as written:
- The presence route writes `online`. The conversation list reads `isOnline`, which no modelled route writes, so presence never reaches the list (`Presence.PresenceTouchesOnlyCaller`, and `Conversations.Summarize` for the card's `isOnline`).
- The message-status route overwrites the status unconditionally, so a read message can go back to delivered (`MessageStatusRoute.ReadCanRegress`).
- The notification limit is applied before the actor join (`Notifications.LimitBeforeJoin`).
- The middleware matcher's unescaped "." in `favicon.ico` matches any character, so `/faviconXico...` paths are not covered (`Middleware.FaviconDotIsWildcard`).
- A signed-in user who opens `/login` is shown the page. `withAuth` returns early for its own sign-in page, so only `/signup` redirects to `/` (`Middleware.OnlySignupRedirects`).
- `new ObjectId` accepts upper-case hex and prints it in lower case, so an id does not always survive the round trip (`DbUtils.ObjectIdRoundTrip`, `DbUtils.UpperCaseIdComesBackLower`).
- The create-post page sends `caption`, but the posts route reads `content`. A post created from that page therefore stores only its image.

## Model

| member | source | states |
|---|---|---|
| Conversations.OtherParticipant | app/api/messages/conversations/route.ts:29 | the first participant whose id differs from the caller's, or none |
| Conversations.OwnLastRead | app/api/messages/conversations/route.ts:45-47 | the lastRead of the caller's first participant entry, or the epoch when that entry has none; the epoch when the caller is not a participant |
| Conversations.UnreadCount | app/api/messages/conversations/route.ts:49-53 | the number of messages of that conversation sent by the other participant strictly after the caller's lastRead |
| Conversations.Listed | app/api/messages/conversations/route.ts:19-23 | exactly the conversations with the caller among their participants (membership both ways, count, and the same multiset as the filter), newest updatedAt first |
| Conversations.Summarize | app/api/messages/conversations/route.ts:26-76 | fails exactly when there is no other participant or no user record for them; otherwise gives the id; the card of the first non-caller participant, with their username, picture or the placeholder, isOnline true only when stored true, and lastActive; the unread count; and lastMessage present iff the conversation has one, with read iff lastRead >= its timestamp or the caller sent it |
| Conversations.ListConversations | app/api/messages/conversations/route.ts:7-84 | 401 without a session; 500 iff some listed conversation cannot be summarised; otherwise one summary per listed conversation, in order |
| Conversations.FindBetween | app/api/messages/conversations/route.ts:111-118 | finds a conversation iff one contains both users, and what it finds contains both |
| Conversations.CreateOrGet | app/api/messages/conversations/route.ts:86-144 | 401, then 400 "Missing user ID", then 404 "User not found", each writing nothing; an existing conversation between the two is returned with existing=true and nothing written; otherwise exactly one conversation [caller, target] with no lastRead and no lastMessage is appended under a fresh id, with existing=false |
| Conversations.InvolvesMember | app/api/messages/conversations/route.ts:112-116 | the participant match used by the lookup is membership in the conversation's member set |
| Conversations.CreateOrGetKeepsOnePerPair | app/api/messages/conversations/route.ts:110-134 | run sequentially, create-or-get never creates a second conversation for a pair of users |
| Conversations.CreateOrGetKeepsUniqueIds | app/api/messages/conversations/route.ts:134 | conversation ids stay distinct |
| Conversations.CreateOrGetRepeat | app/api/messages/conversations/route.ts:111-139 | repeating a create-or-get that created a conversation returns the same id with existing=true and writes nothing |
| Conversations.CreateOrGetOrderIndependent | app/api/messages/conversations/route.ts:111-125 | swapping caller and target gives the same reply |
| Conversations.CreateOrGetAnswered | app/api/messages/conversations/route.ts:111-139 | after a opens a conversation with b, b asking for a gets that conversation, flagged existing |
| Messages.NewMessage | app/api/messages/route.ts:35-42 | the stored message has the given id, conversation and content, status sent, timestamp now and the caller as sender; mediaUrl is present iff a truthy one was supplied |
| Messages.WithLastMessage | app/api/messages/route.ts:47-59 | the summary update sets lastMessage to {content, caller, time} and updatedAt, keeping id, participants and createdAt |
| Messages.SendMessage | app/api/messages/route.ts:7-69 | 401; then 400 for a missing conversation id or content; 404 iff no conversation with that id has the caller as participant; failures write nothing; success appends exactly that message under a fresh id and updates only the first conversation with that id |
| Messages.SendKeepsParticipants | app/api/messages/route.ts:47-59 | no conversation's participants or read marks change, and only the addressed conversation changes at all |
| Messages.SendKeepsUniqueIds | app/api/messages/route.ts:44 | message ids stay distinct |
| MessageStatusRoute.ParseStatus | app/api/messages/status/route.ts:16 | only "delivered" and "read" are accepted, never "sent" |
| MessageStatusRoute.ParseStatusRoundTrip | app/api/messages/status/route.ts:16-24 | the whitelist accepts exactly the stored names of the two settable statuses |
| MessageStatusRoute.UpdateStatus | app/api/messages/status/route.ts:6-31 | 401 without a session; 400 "Invalid request" iff the id or status is missing or not whitelisted, writing nothing; otherwise success, with only the first message with that id taking the new status |
| MessageStatusRoute.UnknownMessageIsSilent | app/api/messages/status/route.ts:24-26 | an unknown message id still succeeds and writes nothing |
| MessageStatusRoute.ReadCanRegress | app/api/messages/status/route.ts:24 | a read message set to delivered becomes delivered: no transition check |
| Notifications.Addressed | app/api/notifications/route.ts:21-28 | the caller's notifications (same multiset as the filter, count as a set of indices), newest first |
| Notifications.Newest | app/api/notifications/route.ts:21-31 | at most 50 of the caller's notifications, newest first, exactly min(50, how many there are), each stored one taken at most as often as it occurs |
| Notifications.NewestAreNewest | app/api/notifications/route.ts:26-31 | a notification the limit leaves out is no newer than any it keeps |
| Notifications.Join | app/api/notifications/route.ts:32-57 | an entry exists iff the actor has a user record; it exposes only _id, type, read, createdAt, postId and the actor's _id/name/username/image |
| Notifications.JoinAll | app/api/notifications/route.ts:32-57 | one entry per notification whose actor exists (count, provenance and completeness), newest first |
| Notifications.ListNotifications | app/api/notifications/route.ts:6-69 | 401 iff no session user id; otherwise the join of the newest 50, so never more than 50 |
| Notifications.LimitBeforeJoin | app/api/notifications/route.ts:29-41 | when one of the kept notifications has lost its actor, fewer than 50 entries come back, however many exist |
| Posts.LikesCount | app/api/posts/route.ts:29-51 | the number of likes whose postId is the post's |
| Posts.CommentsCount | app/api/posts/route.ts:39-52 | the number of comments whose postId is the post's |
| Posts.IsLiked | app/api/posts/route.ts:53-55 | true iff some like of the post has the caller as user |
| Posts.Entry | app/api/posts/route.ts:20-74 | an entry exists iff the author has a user record; its fields are the post's, the counts above, isLiked, and the author's _id/name/username/image |
| Posts.Joined | app/api/posts/route.ts:20-28 | one entry per post whose author exists (count, provenance and completeness) |
| Posts.FeedEntries | app/api/posts/route.ts:17-77 | the same entries, newest createdAt first |
| Posts.Feed | app/api/posts/route.ts:7-87 | 401 iff no session user id; otherwise the feed |
| Posts.CountPost | app/api/posts/route.ts:119-122 | only the first record with the caller's id changes, by postsCount + 1 |
| Posts.CreatePost | app/api/posts/route.ts:90-158 | the route as evidently intended (see Findings): 401; 400 iff neither content nor image is truthy, writing nothing; otherwise 201, exactly one post owned by the caller appended under a fresh id and the caller's postsCount incremented |
| Posts.CreatePostAsWritten | app/api/posts/route.ts:90-158 | the route as written: 401 and 400 as intended; otherwise both writes happen (one post under a fresh id, postsCount + 1) and the reply is 500 "Failed to create post" |
| Posts.CreatedPostProjectionRefused | app/api/posts/route.ts:139-153 | the re-read's projection mixes inclusions with exclusions of fields other than _id, which the store refuses |
| Posts.CreatePostWritesThenFails | app/api/posts/route.ts:110-158 | a signed-in post with content writes what the intended route writes but is answered 500 instead of 201 |
| Posts.CreatedPostInFeed | app/api/posts/route.ts:17-116 | a created post appears in its author's next feed with no likes, no comments and not liked |
| UserSearch.Found | app/api/users/search/route.ts:24-38 | at most 10 users, each not the caller and matching on username or name, the first such users in store order, exactly min(10, how many match) |
| UserSearch.Follows | app/api/users/search/route.ts:41-46 | true iff the caller's record exists, has a following list, and the list holds the id |
| UserSearch.Describe | app/api/users/search/route.ts:48-54 | the hit's id, username and name, its picture or the placeholder, and its follow status |
| UserSearch.SearchUsers | app/api/users/search/route.ts:6-62 | 401 without a session; 400 without a truthy query; otherwise at most 10 results, none of them the caller, each matching the query |
| UserSearch.ShortResultIsComplete | app/api/users/search/route.ts:24-38 | when fewer than 10 come back, every user left out is the caller or does not match |
| Presence.MarkPresence | app/api/users/online/route.ts:19-27 | only the first record with the caller's id changes, and only online and lastActive |
| Presence.SetPresence | app/api/users/online/route.ts:6-37 | 401 iff no session user id, writing nothing; otherwise success, even when no record matched, with the status stored unchecked |
| Presence.PresenceTouchesOnlyCaller | app/api/users/online/route.ts:19-27 | other users are unchanged; in any record only online and lastActive can differ |
| Presence.PresenceReadBack | app/api/users/online/route.ts:19-27 | the caller's record, when it exists, then holds the reported status and now |
| Signup.IssuesMatchRules | app/api/auth/signup/route.ts:6-98 | the schema accepts exactly the forms meeting every field rule; the first message comes from the first failing field: Required for a missing one, otherwise that field's first failing check (for the username, length before charset) |
| Signup.UsernameBase | app/api/auth/signup/route.ts:110-113 | the first min(15, n) characters of the lower-cased name stripped to [a-z0-9], where n is the stripped length |
| Signup.GenerateUniqueUsername | app/api/auth/signup/route.ts:109-115 | the base followed by the decimal rendering of the suffix: one to three digits, no leading zero, whose value is the suffix |
| Signup.InitialUser | app/api/auth/signup/route.ts:48-76 | the record has the submitted fields, zero counts, empty post/follower/following/saved lists and the avatar URL |
| Signup.SignUp | app/api/auth/signup/route.ts:14-107 | an invalid form gives 400 with the first issue; then "Email already exists"; then "Username already exists", each writing nothing; success iff none applies, appending exactly one user and one "join" activity for it, replying 201 |
| Signup.EmailCheckedFirst | app/api/auth/signup/route.ts:23-39 | with both email and username taken, the email error wins |
| Signup.StoredUsernameIsSubmitted | app/api/auth/signup/route.ts:9-45 | the stored username is the submitted one; the fallback is never used |
| Signup.SignUpTwice | app/api/auth/signup/route.ts:23-76 | signing up again with the same form fails with "Email already exists" and writes nothing |
| Signup.SignUpKeepsUniqueIds | app/api/auth/signup/route.ts:48-84 | user and activity ids stay distinct |
| Strings.NatToString | app/api/auth/signup/route.ts:114 | the decimal rendering is non-empty digits without a leading zero |
| Strings.NatToStringValue | app/api/auth/signup/route.ts:114 | reading the rendering back gives the number |
| Strings.Split | app/api/upload/route.ts:56 | splitting gives at least one part, and no part contains the separator |
| Strings.JoinSplit | app/api/upload/route.ts:56 | joining the parts of a split with the separator gives back the string |
| Strings.SplitJoin | app/api/upload/route.ts:56 | splitting undoes joining when no part contains the separator |
| Upload.Extension | app/api/upload/route.ts:17-56 | an accepted type is "image/" followed by its extension, which holds no "/" or "." |
| Upload.ExtensionIsSubtype | app/api/upload/route.ts:56 | the extension is the second part of the type split on "/" |
| Upload.UploadImage | app/api/upload/route.ts:19-85 | 401, then "No file provided", then the size error for more than 5 MiB, then the type error; success iff none applies, with the public URL of the key |
| Upload.UploadKeyParts | app/api/upload/route.ts:56-58 | the key splits into "uploads", the user id and `<hex>.<ext>`, and the last part into hex and extension |
| Upload.UploadTicketFor | app/api/upload/route.ts:88-138 | 401, then 400 when the type or name is missing, then 400 for a type not accepted; success iff none applies, with key `uploads/<userId>/<hex>-<fileName>` and its presigned URL |
| Upload.TicketKeyUnderCallerPrefix | app/api/upload/route.ts:116 | the key starts with the caller's prefix and ends with the file name, whatever the name |
| DbUtils.ToObjectId | lib/db-utils.ts:37-39 | a non-string is returned unchanged; a string is accepted iff it is 24 hexadecimal digits, and becomes an object id that prints as those digits in lower case; any other string throws |
| DbUtils.LowerFixesCanonical | lib/db-utils.ts:37-39 | an accepted id prints unchanged iff it is already lower case |
| DbUtils.NormalizeId | lib/db-utils.ts:42-52 | a falsy document comes back unchanged; otherwise the same keys, every field but _id unchanged, and a truthy _id replaced by its string form |
| DbUtils.NormalizeIdIdempotent | lib/db-utils.ts:45-51 | normalising twice is normalising once |
| DbUtils.ObjectIdRoundTrip | lib/db-utils.ts:37-51 | an accepted id made an object id and normalised back is its lower-case form, which is the id again exactly when the id is canonical |
| DbUtils.UpperCaseIdComesBackLower | lib/db-utils.ts:37-39 | "507F1F77BCF86CD799439011" becomes an object id printing "507f1f77bcf86cd799439011" |
| DbUtils.NormalizeIds | lib/db-utils.ts:55-57 | same length and order, normalizeId on each |
| DbUtils.NormalizeIdsLaws | lib/db-utils.ts:55-57 | distributes over concatenation and is idempotent |
| Middleware.Handle | middleware.ts:4-47 | not applied iff the matcher excludes the path; passed through on next-auth's sign-in page, error page and framework paths; otherwise sent to /login iff `authorized` refuses, redirected to / iff public with a token, else passed through |
| Middleware.OnlySignupRedirects | middleware.ts:8-13 | a request is redirected to / exactly when it is a signed-in request for /signup; /login is always passed through |
| Middleware.PublicPagesMatched | middleware.ts:7-45 | the login and signup pages are subject to the middleware |
| Middleware.ProtectedNeedsToken | middleware.ts:24-45 | a non-public page without a token is passed through only when the wrapper skips it |
| Middleware.FaviconDotIsWildcard | middleware.ts:45 | every path "/favicon" + any character + "ico" is excluded |
| CreatePostForm.CaptionError | app/create/page.tsx:23 | the caption is rejected iff longer than 2200 characters |
| CreatePostForm.ImageError | app/create/page.tsx:24-35 | the image passes iff exactly one file, at most 5 MiB, of an accepted type; otherwise the message of the first failing check |
| CreatePostForm.HandleImageChange | app/create/page.tsx:54-75 | no file, no change; a file failing the size check, or else the type check, sets that error and keeps the preview; an acceptable file becomes the preview |
| CreatePostForm.ClientLimitsMatchServer | app/create/page.tsx:19-20 | the page's size and type limits equal the upload route's |
| CreatePostForm.AcceptedImageUploads | app/create/page.tsx:22-36 | an image the form accepts passes every check of the upload route |
| MessagesPage.FilterConversations | app/messages/page.tsx:54-58 | an empty query keeps the list; otherwise exactly the rows whose lower-cased username contains the lower-cased query |
| MessagesPage.FilterKeepsOrder | app/messages/page.tsx:54-57 | the filter keeps list order |
| MessagesPage.RenderRow | app/messages/page.tsx:96-131 | the preview is present iff there is a last message, prefixed "You: " iff the caller sent it; highlight and badge iff unreadCount > 0 |
| MessagesPage.OwnLastMessageIsRead | app/messages/page.tsx:123 | a row showing "You: " has its last message marked read by the list route |
| MessagesPage.ListedRow | app/api/messages/conversations/route.ts:26-79 | each listed row is the summary of the listed conversation at its position |
| MessagesPage.HighlightMeansUnread | app/messages/page.tsx:97-127 | a row is highlighted iff the other participant has a message newer than the caller's read mark |
| PostLike.HandleLike | components/post.tsx:36-55 | a failed request changes nothing; a successful one flips isLiked and moves likesCount down if it was liked, up otherwise |
| PostLike.HandleLikeConsistent | components/post.tsx:46-47 | the count stays in step with the flag |
| PostLike.ToggleTwice | components/post.tsx:46-47 | two successful toggles restore the card |

## Left out

- Store connection, index creation and `initializeDatabase`: these are I/O. The model assumes only that `_id`s are distinct (`Documents.UniqueIds`). Usernames and emails are not assumed unique.
- Parsing of request ids in the routes: the routes compare ids as plain strings. The source turns them into object ids first (`DbUtils.ToObjectId` models that parse): a malformed id throws and the route answers 500, and an upper-case id finds the lower-case document. The model finds nothing for an upper-case id.
- DbUtils.ToObjectId: only the 24-digit hex form is accepted. Older bson releases also took any 12-character string as raw bytes; that form is not modelled.
- The uploads themselves:
  - The S3 upload, the presigned URL and the random bytes are parameters.
  - `Upload.UploadImage` and `Upload.UploadTicketFor` take the hex string as given; `Upload.RandomHex` requires 32 hexadecimal characters.
- Opaque functions:
  - bcrypt is the parameter `hash`.
  - The schema's email validator is `isEmail`.
  - The case-insensitive regular-expression match of user search is `matches`.
- The session provider: the session is an `Option<Session>` input.
- Exceptions and the generic 500 replies: a failing store call or a request body that is not JSON is not modelled. The 500 of the conversation list, which the code raises itself, is modelled.
- Posts.CreatePost: the reply body is the stored post, not the projection the route re-reads after inserting. As written that re-read fails and the route answers 500 after both writes (`Posts.CreatePostAsWritten`, under Findings); the 201 is the evidently intended reply.
- Concurrency:
  - Handlers run one at a time.
  - Two concurrent create-or-get requests can both insert a conversation.
  - A send's two writes are not atomic.
- Marking messages read and setting `lastRead`: no modelled route does this, so lastRead is given state.
- Messages.SendMessage: the source reads the clock three times. The message uses `now`; the last-message timestamp and `updatedAt` share `later`.
- Conversations.CreateOrGet, Signup.SignUp and Posts.CreatePost: `createdAt` and `updatedAt` come from two clock readings in the source and share one value here.
- Strings.Lower: ASCII lower-casing only, not Unicode case mapping. This affects Signup.UsernameBase and MessagesPage.FilterConversations.
- Signup.IssuesMatchRules and CreatePostForm.CaptionError: lengths count characters, not UTF-16 code units. A request field of the wrong JSON type (a number where a string is expected) is not modelled; a missing field is.
- DbUtils.Stringify: numbers are integers. Floating point and NaN are left out.
- CreatePostForm.ImageError: a file list that is missing altogether, where the schema's later refinements would throw, is modelled as an empty list.
- The sign-in redirect's callback URL and the `/profile/` and `/messages` branch of the middleware: that branch passes requests through exactly like the default.
- Middleware.Handle: next-auth is not part of this model. Its `withAuth` early return (sign-in page, error page, paths under `/_next` or `/favicon.ico`) follows next-auth v4's documented behaviour. Its redirect to the error page when no secret is configured is left out.
- Rendering, timers, polling, toasts and fetch orchestration of the pages and components.
- The routes outside this model: the single conversation, mark-read, user profile, follow and NextAuth handlers.
- Stability of the store's sort: equal `createdAt` or `updatedAt` values may come back in either order. The model sorts by insertion, and its contracts state only the descending order and the contents.

## Findings

| source | as written | input that shows it | evidently intended | confidence | as-written member | corrected member |
|---|---|---|---|---|---|---|
| app/api/posts/route.ts:139-153 | the re-read's `$project` includes `_id`, `content`, `image`, `createdAt` and `user` and also sets `likesCount: 0`, `commentsCount: 0`, `isLiked: false`, which the store reads as exclusions and refuses in an inclusion projection; the `catch` then answers 500 after the post is inserted and postsCount incremented | a signed-in POST with content "hi" | 201 with the new post, its counts zero and not liked | medium, not executed; rests on MongoDB's rule that an inclusion projection may exclude only `_id` | Posts.CreatePostAsWritten | Posts.CreatePost |
