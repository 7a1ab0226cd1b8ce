# Sharepath backend core in Dafny

Sharepath is a social network for travellers. Users register and log in, befriend each
other, plan itineraries of activities at places, and share them as publications that others
review, rate and report. Friends chat over Socket.IO, and the chat list shows who is online.
This project models the core of its backend:

- the socket layer (`src/sockets/socketHandler.ts`): the session registry, the
  authentication middleware, the connection handler and its events (chat list, history,
  private messages, typing, delivery and read receipts, presence on connect and
  disconnect), and the notifier the HTTP controllers use;
- the HTTP controllers for friendships (`amigo`), publications and the feed
  (`publicacion`), reviews (`resena`), reports (`reporte`), itineraries (`itinerario`),
  users (`usuario`), registration and login (`auth`), and the authentication hook and role
  guard (`auth.service`);
- photo storage on disk (`FileDataSource`).

Layout: one module per source file, plus shared modules. `Wrappers` holds `Option` and
`Result`; a `Result` error carries the HTTP status it turns into (`src/index.ts:43-56`).
`Text` holds the string helpers, `Seqs` filtering and sorting, and `Domain` the stored
records.

Each controller is a class. Its fields are the tables it uses, as sequences of records.
Writes are methods whose `ensures` give the whole new state. Reads are functions over that
state. The socket handler is the class `SocketGateway.Gateway`, which holds the live sockets
(each in the room of its user), the session store and the message table. Every emit is
appended to a shared outbox (`SocketTransport.Outbox`), and `SocketTransport.Reaches` says
which socket an emit reaches.

The database, the token verifier, the clock, the random source and the password hash stay
outside the model. Each becomes a value or a function parameter: `now`, `random`, `verify`,
`norm` (accent removal) and `loaded` (the publications use case). The password hash is
`Domain.Hash`, a concrete injective stand-in: it keeps the one property the code relies on,
that `Bun.password.verify` accepts exactly the password that was hashed, and nothing about
the salted digest itself.

Notes on the code as written, which the model follows:

- Presence differs between two places. When a user connects, a friend is told only if that
  friend's *first* stored session is marked connected (`find` at
  `src/sockets/socketHandler.ts:296-300`). The chat list instead shows a friend online when
  *any* of the friend's sessions is connected (line 247). `SocketSessions.PresenceTestsDisagree`
  gives a session list on which the two tests disagree.
- A private message is emitted with `socket.to(to).to(me)`. It reaches the sender's other
  tabs but not the socket that sent it.
- History is ordered by `horaMensaje` ascending, so two messages sent at the same time keep
  no particular order. Only a non-decreasing order is promised.
- `respondRequest` sends the "friend accepted" notification for a rejection too.
- `unblock` turns any LOCKED edge between the two users into FRIEND, even a block of someone
  who was never a friend.
- `getFriendsCount` counts every edge touching the user, whatever its status.
- A review can only be written on a publication whose private mode is `true`.
  `getPublicationWithResenas` instead opens public publications to everyone.
- `reporte.create` names the reporter by address (`{ correo }`) without looking it up, and
  saves the report and its history entry before it looks up the reporter. For an address
  with no user row the save breaks the reporter's foreign key (500), so the 404 for a
  missing reporter that follows it is never reached.
- `deleteUser` and `deleteUserByUsername` load the user without relations, so
  `repository.remove` leaves the referencing rows to the database. Friendship edges cascade
  away (`onDelete: "CASCADE"` at `src/data/model/Amigo.ts:26,30`). A preferences row has no
  delete action (`src/data/model/Preferencias.ts:11-12`), so a user with preferences cannot
  be deleted (500). In `deleteUser` that failure comes after the photo was deleted
  (`Users.CascadeFriendCount` gives the friend counts afterwards).
- The `DELETE /amigo/:username` route (`src/presentation/amigo/index.ts:69-72`) passes
  `user.username` to `removeFriend`, but the token holds only `correo` and `role`, so that
  argument is undefined. The controller then compares the route parameter with edge ends
  that are addresses. The route is outside the modelled core: `Friendship.AmigoController.RemoveFriend`
  models the controller called with two addresses.
- `updateUser` deletes the old photo before saving the new one. If the save then fails, the
  old photo is already gone.
- `buscarItinerarios` puts `limit(10)` on a query with joins, so the database counts joined
  rows (one per activity) before TypeORM groups them into itineraries. Five itineraries
  with three matching activities each give four itineraries, the fourth with only one of
  its activities. Each itinerary returned carries only the activities whose rows passed the
  filters (`Itineraries.LimitCountsRows`, `Itineraries.SearchResultsAreHits`).
- `updateItinerario` removes the old activities before it saves, and sets each new
  activity's place by id without looking it up. An unknown place fails the save on its
  foreign key (500), and the itinerary is left without activities.

## Model

| member | source | states |
|---|---|---|
| SocketSessions.SessionStore.FindSession | src/sockets/socketHandler.ts:96-98 | a session is found exactly when its id is stored, and it is the stored record |
| SocketSessions.SessionStore.SaveSession | src/sockets/socketHandler.ts:99-101 | the id now maps to the new session; a known id keeps its place in the iteration order, a new id goes last |
| SocketSessions.SessionStore.AllSessions | src/sockets/socketHandler.ts:102-104 | every stored session once, in first-insertion order |
| SocketSessions.FirstSessionIndex | src/sockets/socketHandler.ts:296-299 | `find` picks the earliest session of the user, and finds none exactly when the user has no session |
| SocketSessions.SignalsOnlineImpliesConnected | src/sockets/socketHandler.ts:296-300 | a friend signalled as online on connect is also shown online in the chat list |
| SocketSessions.PresenceTestsDisagree | src/sockets/socketHandler.ts:247 | a user can be shown online in the chat list yet never announced on connect: first session closed, a later one open |
| SocketSessions.Authenticate | src/sockets/socketHandler.ts:161-213 | a known session id is accepted with its stored identity; otherwise it is accepted exactly when a token is given and the backend returns both address and user name, under the new session id; no token is NoToken |
| SocketSessions.ReconnectSkipsTokenCheck | src/sockets/socketHandler.ts:163-172 | reconnecting with a known session id gives the same answer whatever the token check or the random source would do, and keeps that session id |
| SocketSessions.UnauthenticatedRefused | src/sockets/socketHandler.ts:176-179 | without a known session and without a token the connection is refused, whatever the backend says |
| SocketChat.Conversation | src/sockets/socketHandler.ts:30-37 | exactly the messages exchanged by the two users in either direction, with their multiplicities |
| SocketChat.ChatHistoryOf | src/sockets/socketHandler.ts:26-48 | chat history is ordered by time, holds exactly the views of the pair's messages, and has one entry per message |
| SocketChat.ViewsOfPermutation | src/sockets/socketHandler.ts:26-48 | the same messages, as often, give the same views, as often |
| SocketChat.Raise | src/sockets/socketHandler.ts:348-355 | the bulk update changes only the status; it never lowers a status; messages of other pairs are untouched; each message of the pair reaches at least the target; a message already at the target is unchanged |
| SocketChat.RaiseIdempotent | src/sockets/socketHandler.ts:345-374 | marking the same conversation twice changes nothing after the first time |
| SocketChat.ReadAfterReceived | src/sockets/socketHandler.ts:345-374 | marking received then read is the same as marking read directly |
| SocketChat.UnreadCount | src/sockets/socketHandler.ts:251-257 | the unread count is zero exactly when no message from the friend to me is below LEIDO |
| SocketChat.MarkReadClearsUnread | src/sockets/socketHandler.ts:360-374 | after "mark messages read" nothing from that friend is unread |
| SocketChat.MarkReceivedKeepsUnread | src/sockets/socketHandler.ts:345-358 | "mark messages received" changes no unread count of any pair |
| SocketChat.LastBetween | src/sockets/socketHandler.ts:259-269 | the chat list's last message is a message of the pair no older than any other, and none exists exactly when the pair never wrote |
| SocketChat.GetFriendsExact | src/sockets/socketHandler.ts:50-91 | the friend list names only users at the other end of a FRIEND edge touching me, with their stored name and photo, and names every such user |
| SocketChat.EntriesFor | src/sockets/socketHandler.ts:271-280 | one chat-list row per friend, in friend order |
| SocketChat.EntryRecency | src/sockets/socketHandler.ts:283-288 | a row's sort key is at least the time of every message of the pair, and the row has no time exactly when the pair has no message |
| SocketTransport.Envelope | src/sockets/socketHandler.ts:141-154 | a notification is unread, its id and date are the current time, the fields are copied from the data, and a missing or empty avatar becomes "/img/angel.jpg" |
| SocketTransport.EnvelopeAvatarNeverBlank | src/sockets/socketHandler.ts:147-153 | every notification carries a non-empty avatar and the two link ids agree |
| SocketTransport.NotificationReachesOnlyTheUser | src/sockets/socketHandler.ts:156 | a notification reaches every socket of the addressed user and no other socket |
| SocketTransport.Outbox.InitSocketIO | src/sockets/socketHandler.ts:131-133 | the notifier is ready and nothing is sent |
| SocketTransport.Outbox.NotifyUser | src/sockets/socketHandler.ts:136-157 | one notification emit to the user's room when the server is set, and silently nothing before `initSocketIO` |
| SocketGateway.OnlineSignalsExact | src/sockets/socketHandler.ts:292-308 | on connect, "user connected" goes exactly to the friends whose first stored session is connected |
| SocketGateway.OfflineSignals | src/sockets/socketHandler.ts:387-394 | one "user disconnected" per friend, in friend order, to that friend's room |
| SocketGateway.OfflineSignalsReachFriends | src/sockets/socketHandler.ts:393 | every socket of every friend receives "user disconnected", because `io.to` excludes no socket |
| SocketGateway.PrivateMessageReach | src/sockets/socketHandler.ts:332 | a private message reaches all the recipient's sockets and the sender's other sockets, never the sending socket |
| SocketGateway.SignalOnline | src/sockets/socketHandler.ts:296-308 | the connect loop sends exactly the online signals, in friend order |
| SocketGateway.SignalOffline | src/sockets/socketHandler.ts:388-394 | the disconnect loop sends exactly the offline signals |
| SocketGateway.ChatRows | src/sockets/socketHandler.ts:246-281 | the loop builds exactly the reference rows: any session connected, unread count, last message |
| SocketGateway.Gateway.OpenSocket | src/sockets/socketHandler.ts:221 | a new socket gets a fresh id and joins its user's room; the tables are unchanged |
| SocketGateway.Gateway.Connect | src/sockets/socketHandler.ts:216-235 | the session is stored as connected, "session" goes to the new socket only, then the online signals follow |
| SocketGateway.Gateway.FriendsList | src/sockets/socketHandler.ts:237-290 | the chat list is ordered by most recent message first, is a permutation of the rows for my friends, and keeps friends of equal recency in friend order, as the stable sort does |
| SocketGateway.Gateway.GetFriendsList | src/sockets/socketHandler.ts:237-290 | "users" goes to the asking socket only, carrying the rows sorted by recency with ties in friend order |
| SocketGateway.Gateway.FetchMessages | src/sockets/socketHandler.ts:310-313 | "chat history" goes to the asking socket with the ordered conversation |
| SocketGateway.Gateway.SendNotification | src/sockets/socketHandler.ts:316-318 | the data is echoed to the same socket |
| SocketGateway.Gateway.SendPrivateMessage | src/sockets/socketHandler.ts:321-333 | the message is stored as ENVIADO at the server's time and then emitted; if the sender or the recipient is not a user, the save fails on that foreign key and nothing is stored or sent |
| SocketGateway.Gateway.Typing | src/sockets/socketHandler.ts:336-338 | "display typing" to the other user's room, excluding the sending socket |
| SocketGateway.Gateway.StopTyping | src/sockets/socketHandler.ts:341-343 | "hide typing" to the other user's room, excluding the sending socket |
| SocketGateway.Gateway.MarkReceived | src/sockets/socketHandler.ts:345-358 | the pair's messages to me rise to RECIBIDO, and the sender is told |
| SocketGateway.Gateway.MarkRead | src/sockets/socketHandler.ts:360-374 | the pair's messages to me rise to LEIDO, and the sender is told |
| SocketGateway.Gateway.Disconnect | src/sockets/socketHandler.ts:377-402 | the socket leaves its room; only if the room is then empty are all friends told and the session stored as disconnected, otherwise nothing else changes |
| Friendship.FriendFilter | src/presentation/amigo/amigo.controller.ts:16-41 | with a second user the filter matches exactly the edges joining the two (either direction) with the status; without one, every edge touching the first user |
| Friendship.EmptyNameWidensFilter | src/presentation/amigo/amigo.controller.ts:16-41 | an empty second name is falsy and matches every edge of the first user |
| Friendship.FirstMatch | src/presentation/amigo/amigo.controller.ts:107-127 | `findOne` returns the first matching edge in table order, or none exactly when no edge matches |
| Friendship.FriendshipTest | src/presentation/amigo/amigo.controller.ts:67-71 | the friendship test of `sendRequest` holds exactly when a FRIEND edge joins the two |
| Friendship.NameAt | src/presentation/amigo/amigo.controller.ts:57-62 | the user name joined at an edge end exists exactly when a stored user has that address |
| Friendship.SendRequestCheckAsWritten | src/presentation/amigo/amigo.controller.ts:43-71 | as written, a request that passes names two stored users (possibly the same one); the earlier-request test compares the user names at both ends of each edge |
| Friendship.SelfRequestPassesAsWritten | src/presentation/amigo/amigo.controller.ts:44-55 | an address and the same user's user name pass every guard: a self-request |
| Friendship.SendRequestCheck | src/presentation/amigo/amigo.controller.ts:43-71 | 400 for the same raw name, 404 for an unknown one; it passes exactly when two different stored users are not friends and no edge runs from a user with the sender's user name to a user with the receiver's |
| Friendship.ByNameIsByAddress | src/presentation/amigo/amigo.controller.ts:57-62 | when addresses and user names are both unique, the test by user name finds exactly the edges from the one user to the other |
| Friendship.EarlierRequestRefuses | src/presentation/amigo/amigo.controller.ts:57-62 | an earlier request between the two user names refuses the new one with 400 |
| Friendship.NamesakeRequestRefused | src/presentation/amigo/amigo.controller.ts:57-64 | a user sharing a user name with another inherits that user's requests: with only an edge from the namesake to the receiver, the request is refused with 400 |
| Friendship.SelfRequestRefused | src/presentation/amigo/amigo.controller.ts:44-45 | the corrected guard refuses the self-request with 400 |
| Friendship.SendRequestChecksAgree | src/presentation/amigo/amigo.controller.ts:43-71 | when the names resolve to different users, the two versions give the same answer |
| Friendship.ActionOfState | src/presentation/amigo/index.ts:41-45 | state 1 accepts, state 2 rejects, anything else is a plain error (500) |
| Friendship.DirectFriends | src/presentation/amigo/amigo.controller.ts:309-331 | the direct friends are exactly the users at the other end of my FRIEND edges |
| Friendship.Responded | src/presentation/amigo/amigo.controller.ts:142-147 | accepting makes the edge FRIEND with the date; anything else makes it REJECTED; the ends and id are kept |
| Friendship.AmigoController.SendRequest | src/presentation/amigo/amigo.controller.ts:43-105 | a refusal changes nothing; success adds one PENDING edge, stores a FRIEND_REQUEST notice for the receiver and pushes it to the receiver; it models the corrected self-request check of the second Findings row (`Friendship.SelfRequestRefused`), not the code as written |
| Friendship.AmigoController.Notify | src/presentation/amigo/amigo.controller.ts:81-99 | the notice is stored and pushed to that user, and no edge changes |
| Friendship.AmigoController.CancelRequest | src/presentation/amigo/amigo.controller.ts:107-127 | 404 for an unknown user or no pending edge; otherwise the first PENDING edge between the two, in either direction, is removed |
| Friendship.AmigoController.RespondRequest | src/presentation/amigo/amigo.controller.ts:130-170 | 404 for an unknown id; otherwise the edge is updated and the requester gets a FRIEND_ACCEPTED notice, stored and pushed, for a rejection too |
| Friendship.AmigoController.ListRequest | src/presentation/amigo/amigo.controller.ts:172-186 | exactly the PENDING edges I received; 400 exactly when there are none |
| Friendship.AmigoController.ListFriend | src/presentation/amigo/amigo.controller.ts:188-196 | exactly my FRIEND edges; 400 exactly when there are none |
| Friendship.AmigoController.SearchFriend | src/presentation/amigo/amigo.controller.ts:198-211 | exactly my friends whose user name contains the query, ignoring case |
| Friendship.AmigoController.FriendUsers | src/presentation/amigo/amigo.controller.ts:204-207 | the stored users at the other end of my FRIEND edges, and only those |
| Friendship.AmigoController.RemoveFriend | src/presentation/amigo/amigo.controller.ts:213-226 | 400 for oneself, 404 when not friends, otherwise the first FRIEND edge between the two is removed |
| Friendship.AmigoController.Block | src/presentation/amigo/amigo.controller.ts:228-257 | a FRIEND edge between the two becomes LOCKED in place; without one, a new LOCKED edge from the blocker is added |
| Friendship.AmigoController.Unblock | src/presentation/amigo/amigo.controller.ts:259-280 | the first LOCKED edge between the two becomes FRIEND; 404 when there is none |
| Friendship.AmigoController.ListBlock | src/presentation/amigo/amigo.controller.ts:282-299 | 404 exactly for an unknown user; otherwise exactly the cards of the users it blocked |
| Friendship.AmigoController.GetFriendsOfFriends | src/presentation/amigo/amigo.controller.ts:301-390 | empty without direct friends; each suggestion once; every card is a friend of a friend who is neither me nor a direct friend; every such user is suggested |
| Friendship.CollectSuggestions | src/presentation/amigo/amigo.controller.ts:354-387 | the loop's map holds exactly the users the query edges record, each with its card, with the keys in first-insertion order |
| Friendship.Remember | src/presentation/amigo/amigo.controller.ts:364-384 | `Map.set` adds a new key at the end and keeps an old key's place |
| Friendship.CollectedIsSuggestion | src/presentation/amigo/amigo.controller.ts:333-387 | what the loop collects from the query result is exactly the set of suggestions |
| Friendship.CardsInOrder | src/presentation/amigo/amigo.controller.ts:389 | the map's values in key order |
| Publications.ValidId | src/presentation/publicacion/publicacion.controller.ts:30-33 | an id passes exactly when it is a number greater than 0, and otherwise it is 400 |
| Publications.PrivacityFlag | src/presentation/publicacion/publicacion.controller.ts:53 | private exactly when the text is "true" |
| Publications.ShareRequestOf | src/presentation/publicacion/publicacion.controller.ts:37-67 | 400 exactly for an invalid itinerary id; otherwise the request carries the caller, description and privacy flag |
| Publications.PublicacionController.AttachPhotos | src/presentation/publicacion/publicacion.controller.ts:58-63 | one photo per URL, in order, all linked to the publication, appended after the existing photos |
| Publications.FriendCorreos | src/presentation/publicacion/publicacion.controller.ts:100-101 | the addresses on the listed edges other than mine |
| Publications.NormalizeAll | src/presentation/publicacion/publicacion.controller.ts:122 | accent removal applied to each visited state |
| Publications.OwnedBy | src/presentation/publicacion/publicacion.controller.ts:92-96 | exactly my publications, with multiplicity |
| Publications.OwnedByAny | src/presentation/publicacion/publicacion.controller.ts:104-107 | exactly the friends' publications, with multiplicity |
| Publications.OwnedByNone | src/presentation/publicacion/publicacion.controller.ts:110-113 | exactly the publications neither mine nor a friend's |
| Publications.MatchingPreferences | src/presentation/publicacion/publicacion.controller.ts:116-127 | exactly the publications with a state among the visited ones, after normalisation |
| Publications.OthersPool | src/presentation/publicacion/publicacion.controller.ts:116-125 | 500 exactly when the caller's stored preferences have no visited states and the others' pool is not empty; otherwise a sub-list of that pool |
| Publications.FeedFriendsAsWritten | src/presentation/publicacion/publicacion.controller.ts:99 | a failed `listFriend` fails the whole feed with its status |
| Publications.FriendlessFeedAsWritten | src/presentation/publicacion/publicacion.controller.ts:99 | a user without friends gets 400 instead of a feed |
| Publications.FeedFriends | src/presentation/publicacion/publicacion.controller.ts:99 | a user without friends has an empty friends' segment; otherwise the same friends as the code as written |
| Publications.PublicacionController.GetMyPublications | src/presentation/publicacion/publicacion.controller.ts:79-167 | the feed is my publications, then friends', then the others (matching visited states when preferences exist), each a permutation of its pool ranked by rating, ties in pool order; 500 when the stored preferences have no visited states and the others' pool is not empty; it models the corrected friendless feed of the first Findings row (`Publications.FeedFriends`), not the 400 as written |
| Publications.PublicacionController.GetMyPublicationsAsWritten | src/presentation/publicacion/publicacion.controller.ts:79-167 | a user with no FRIEND edge gets 400 |
| Publications.PublicacionController.GetPublicationWithResenas | src/presentation/publicacion/publicacion.controller.ts:187-248 | 404 exactly when the id is unknown; a private publication is shown only to its owner; other refusals are 403 |
| Publications.PrivateIsOwnerOnly | src/presentation/publicacion/publicacion.controller.ts:199-215 | whoever receives a private publication is its owner |
| Publications.PublicacionController.DeletePublication | src/presentation/publicacion/publicacion.controller.ts:169-185 | 404 when missing, 403 unless the caller shared it, otherwise exactly that row is removed |
| Publications.FindPublication | src/presentation/publicacion/publicacion.controller.ts:170-177 | the row with that id, or none exactly when no row has it |
| Reviews.AppendKeepsOnePerAuthor | src/presentation/resena/resena.controller.ts:47-72 | a review for a pair without one keeps one review per user and publication |
| Reviews.RemoveKeepsOnePerAuthor | src/presentation/resena/resena.controller.ts:112-120 | removing a review keeps one review per pair |
| Reviews.UpdateKeepsOnePerAuthor | src/presentation/resena/resena.controller.ts:85-100 | editing score or comment keeps one review per pair |
| Reviews.ReviewOfPairUnique | src/presentation/resena/resena.controller.ts:47-56 | a user's review of a publication is unique |
| Reviews.FindReview | src/presentation/resena/resena.controller.ts:80-87 | the review with that id, or none exactly when no review has it |
| Reviews.StoredComment | src/presentation/resena/resena.controller.ts:68 | an empty comment is stored as none; any other is kept |
| Reviews.ResenaController.CanAccessPublication | src/presentation/resena/resena.controller.ts:16-30 | only a publication with that id and private mode true is found; otherwise 404 |
| Reviews.ResenaController.CreateResena | src/presentation/resena/resena.controller.ts:32-73 | 404 for no access, 400 on one's own publication, 400 for a second review, 404 for an unknown user; otherwise one new review is appended |
| Reviews.ResenaController.UpdateResena | src/presentation/resena/resena.controller.ts:75-101 | 404 when missing, 403 for anyone but the author; only the fields given change |
| Reviews.ResenaController.DeleteResena | src/presentation/resena/resena.controller.ts:103-121 | 404 when missing, 403 for anyone but the author, otherwise exactly that review is removed |
| Reviews.ResenaController.GetResenasByPublicacion | src/presentation/resena/resena.controller.ts:123-138 | 404 like the access check; otherwise exactly the publication's reviews, highest id first |
| Reports.CreateGuard | src/presentation/reporte/reporte.controller.ts:33-48 | 404 exactly for an unknown publication, then 409 exactly for a second report by the same user |
| Reports.AdmittedReportKeepsOnePerPair | src/presentation/reporte/reporte.controller.ts:37-59 | a report the guard admits keeps each user reporting each publication at most once |
| Reports.Admins | src/presentation/reporte/reporte.controller.ts:68-70 | exactly the users with the admin role, with distinct addresses |
| Reports.AdminNotices | src/presentation/reporte/reporte.controller.ts:68-95 | one stored notice per administrator, in order |
| Reports.OneNoticePerAdmin | src/presentation/reporte/reporte.controller.ts:68-95 | every administrator gets exactly one unread REPORT notice from the reporter about the report, and nobody else gets one |
| Reports.NoticePerListedAdmin | src/presentation/reporte/reporte.controller.ts:68-95 | for a list of administrators with distinct addresses, one notice each and none to anyone else |
| Reports.NoticesAreReports | src/presentation/reporte/reporte.controller.ts:73-80 | every notice is an unread REPORT from the reporter linked to the report |
| Reports.NoticesReachAdmins | src/presentation/reporte/reporte.controller.ts:68-95 | every listed administrator has a notice and every notice goes to one |
| Reports.NoticesDistinct | src/presentation/reporte/reporte.controller.ts:68-95 | no administrator gets two notices |
| Reports.AdminEmitsOnePerAdmin | src/presentation/reporte/reporte.controller.ts:86-94 | when the notifier is set, one push per administrator, in order; none otherwise |
| Reports.NotifyAdmins | src/presentation/reporte/reporte.controller.ts:68-95 | the loop stores and pushes exactly the notices for the administrators |
| Reports.FindReport | src/presentation/reporte/reporte.controller.ts:117-118 | the report with that id, or none exactly when no report has it |
| Reports.Merge | src/presentation/reporte/reporte.controller.ts:119 | only a given description changes; id, reporter and publication are kept |
| Reports.ReporteController.Create | src/presentation/reporte/reporte.controller.ts:29-97 | a refused report changes nothing; for a reporter with no user row the save fails on the foreign key (500) and nothing is stored; otherwise the report is saved with its history and every administrator is notified |
| Reports.ReporteController.Record | src/presentation/reporte/reporte.controller.ts:49-59 | the report is saved under the next id with its history line |
| Reports.ReporteController.GetById | src/presentation/reporte/reporte.controller.ts:105-110 | the report with that id, or none exactly when no report has it |
| Reports.ReporteController.Update | src/presentation/reporte/reporte.controller.ts:112-121 | none for an unknown id; otherwise the merged report replaces the old one |
| Reports.ReporteController.Delete | src/presentation/reporte/reporte.controller.ts:123-125 | the rows with that id are removed; the count is 0 exactly when none existed |
| Reports.ReporteController.RemoveReport | src/presentation/reporte/reporte.controller.ts:153-158 | every report with that id is removed and nothing else changes |
| Reports.ReporteController.RemovePublication | src/presentation/reporte/reporte.controller.ts:157 | the publication is removed and nothing else changes |
| Reports.ReporteController.BanPublication | src/presentation/reporte/reporte.controller.ts:145-162 | 404 for an unknown report; otherwise the report is removed, and its publication too when it still exists |
| Itineraries.ToActividad | src/presentation/itinerario/itinerario.controller.ts:72-86 | an activity keeps its place and has a date exactly when a non-empty one was given |
| Itineraries.ToActividades | src/presentation/itinerario/itinerario.controller.ts:72-88 | one activity per input, in input order |
| Itineraries.FindLugar | src/presentation/itinerario/itinerario.controller.ts:77-82 | the place with that id, or none exactly when none has it |
| Itineraries.FindItinerario | src/presentation/itinerario/itinerario.controller.ts:37-40 | the first itinerary with that id, or none exactly when none has it |
| Itineraries.FindOwned | src/presentation/itinerario/itinerario.controller.ts:105-115 | the first itinerary with that id and owner, or none exactly when none matches both |
| Itineraries.FindItinerarioUnique | src/presentation/itinerario/itinerario.controller.ts:136-137 | with unique ids, the row read back by id is the row just written |
| Itineraries.Rows | src/presentation/itinerario/itinerario.controller.ts:169-173 | the left joins give at least one row per itinerary, each row is of that itinerary, and an activity's row carries one of its activities with that activity's place |
| Itineraries.RowOfActivity | src/presentation/itinerario/itinerario.controller.ts:171-173 | every activity of an itinerary has its joined row, with its place |
| Itineraries.JoinRows | src/presentation/itinerario/itinerario.controller.ts:169-173 | the joined rows are exactly the rows of the itineraries of the table |
| Itineraries.RowSelectedIsHit | src/presentation/itinerario/itinerario.controller.ts:174-188 | the `WHERE` built from the filters keeps a joined row exactly when it meets every filter given |
| Itineraries.SearchResults | src/presentation/itinerario/itinerario.controller.ts:169-195 | at most ten itineraries: the limit of ten counts joined rows, not itineraries |
| Itineraries.Hydrate | src/presentation/itinerario/itinerario.controller.ts:195 | reading rows as entities gives no more itineraries than rows, the first of them from the first row |
| Itineraries.HydrateHead | src/presentation/itinerario/itinerario.controller.ts:195 | the first itinerary read carries only activities of rows of that itinerary |
| Itineraries.HydrateSound | src/presentation/itinerario/itinerario.controller.ts:195 | every itinerary read is a row's itinerary carrying only activities of that itinerary's rows |
| Itineraries.HydrateComplete | src/presentation/itinerario/itinerario.controller.ts:195 | the itinerary of every row is read |
| Itineraries.HydrateKeepsTail | src/presentation/itinerario/itinerario.controller.ts:195 | a further row keeps the itineraries read from the rows after it, merging only into the first |
| Itineraries.HydrateOne | src/presentation/itinerario/itinerario.controller.ts:195 | rows of one itinerary are read as one itinerary |
| Itineraries.SearchResultsAreHits | src/presentation/itinerario/itinerario.controller.ts:169-195 | every itinerary returned is a search hit of the table, cut down to activities whose rows meet the filters |
| Itineraries.MatchActIsHit | src/presentation/itinerario/itinerario.controller.ts:169-195 | an activity returned is one of the itinerary's own, and its row meets the filters |
| Itineraries.MatchRowIsHit | src/presentation/itinerario/itinerario.controller.ts:169-195 | a row within the limit is a row of an itinerary of the table and meets the filters |
| Itineraries.FewMatchesAllHits | src/presentation/itinerario/itinerario.controller.ts:169-195 | when fewer than ten joined rows match, every search hit of the table is returned |
| Itineraries.HitRowMatches | src/presentation/itinerario/itinerario.controller.ts:169-188 | a row of an itinerary of the table that meets the filters is a matching row |
| Itineraries.HydrateHas | src/presentation/itinerario/itinerario.controller.ts:195 | the itinerary of every row is read |
| Itineraries.LimitCountsRows | src/presentation/itinerario/itinerario.controller.ts:195 | when the first itinerary alone has ten matching rows, exactly one itinerary is returned, whatever else matches |
| Itineraries.FirstRowsOnly | src/presentation/itinerario/itinerario.controller.ts:195 | the limit then takes only that itinerary's rows |
| Itineraries.SameFilter | src/presentation/itinerario/itinerario.controller.ts:174-188 | filtering the joined rows by the built conditions and by the filter definition give the same rows |
| Itineraries.ItinerarioController.GetAll | src/presentation/itinerario/itinerario.controller.ts:17-31 | an administrator gets every itinerary, anyone else exactly their own |
| Itineraries.ItinerarioController.GetById | src/presentation/itinerario/itinerario.controller.ts:33-47 | an id that does not parse is 500; otherwise 404 exactly when no itinerary has it; any caller may read any itinerary |
| Itineraries.ItinerarioController.Create | src/presentation/itinerario/itinerario.controller.ts:49-94 | 401 for an unknown owner, 400 without activities, 404 exactly when some place is unknown; otherwise one new itinerary with the activities in order |
| Itineraries.ItinerarioController.Update | src/presentation/itinerario/itinerario.controller.ts:96-138 | 400 for a bad id, 404 unless the caller owns it; a given list naming an unknown place is 500 after the old activities are gone; otherwise an empty title keeps the old one and a given list replaces the activities |
| Itineraries.ItinerarioController.Delete | src/presentation/itinerario/itinerario.controller.ts:140-161 | 400 for a bad id, 404 when missing, 403 unless owner or administrator; otherwise exactly that itinerary is removed |
| Itineraries.ItinerarioController.RemoveRow | src/presentation/itinerario/itinerario.controller.ts:159 | the rows with that id are removed: exactly one row |
| Itineraries.ReplaceKeepsIds | src/presentation/itinerario/itinerario.controller.ts:118-136 | an update in place keeps the ids unique |
| Itineraries.RemoveOneById | src/presentation/itinerario/itinerario.controller.ts:159 | with unique ids, deleting by id removes exactly that one row |
| Itineraries.ItinerarioController.Buscar | src/presentation/itinerario/itinerario.controller.ts:164-196 | 400 exactly when no filter is given; a term made only of white space (as `trim()` reads it, Unicode spaces included) is no filter; otherwise exactly the reference search results, the first ten matching joined rows read as itineraries |
| Files.Extension | src/data/FileDataSource.ts:36-37 | the extension contains no dot and is the whole name, lower-cased, when there is no dot |
| Files.ExtensionOfDotted | src/data/FileDataSource.ts:36-37 | the extension of `base.ext` is `ext`, lower-cased |
| Files.MimeType | src/data/FileDataSource.ts:103-114 | jpeg for jpg and jpeg, png for png, octet-stream exactly for the names that cannot be uploaded |
| Files.ServedAsImageIffUploadable | src/data/FileDataSource.ts:103-114 | a file is served as an image exactly when its extension could be uploaded |
| Files.UniqueSuffix | src/data/FileDataSource.ts:42 | the suffix contains no slash |
| Files.StoredName | src/data/FileDataSource.ts:42-43 | the stored name ends with the uploaded name and adds no slash |
| Files.PublicUrlNamesFile | src/data/FileDataSource.ts:49-50 | the last path segment of a public URL, read back by the parser, is the stored name as the URL spells it; that spelling is the name itself exactly when the name is plain |
| Files.DeleteTarget | src/data/FileDataSource.ts:69-94 | the file chosen for deletion is one the directory holds |
| Files.SaveThenDeleteByUrl | src/data/FileDataSource.ts:32-94 | after a save, deleting by the URL it returned removes the file named by the URL's spelling of the stored name, and nothing when no file has that name |
| Files.SaveThenDeletePlain | src/data/FileDataSource.ts:32-94 | after saving a plain name, deleting by the returned URL removes exactly the saved file |
| Files.DeleteByPublicUrl | src/data/FileDataSource.ts:69-94 | deleting by a published URL from a directory of slash-free names removes the URL's last segment exactly when the directory holds a file of that name |
| Files.DeleteTargetByBasename | src/data/FileDataSource.ts:76-82 | when the cleaned name keeps a slash, the file deleted is the URL's last segment if it is stored, and none otherwise |
| Files.PublicUrlCleanNameHasSlash | src/data/FileDataSource.ts:72-74 | cleaning a public URL keeps the slash of its scheme, so the first attempt never names a stored file |
| Files.SpacedNameNotDeletedByUrl | src/data/FileDataSource.ts:79-82 | a file saved under a name with a space is not found by its own URL, which spells the space `%20` |
| Files.Written | src/data/FileDataSource.ts:57-66 | the names the files are written under, none with a slash |
| Files.Urls | src/data/FileDataSource.ts:57-66 | one URL per file, in order |
| Files.UrlsNameStoredFiles | src/data/FileDataSource.ts:57-66 | each URL returned reads back as the URL spelling of its stored name; that spelling is the stored name exactly when the uploaded name is path-clean, and then it names a file now in the directory |
| Files.StoredNamePlain | src/data/FileDataSource.ts:42-43 | a stored name is plain exactly when the uploaded name holds no character the path encodes and no backslash |
| Files.FileDataSource.SaveFile | src/data/FileDataSource.ts:32-54 | a refused extension or an unwritable name is 500 and writes nothing; otherwise the file is added and its public URL returned |
| Files.FileDataSource.SaveFiles | src/data/FileDataSource.ts:55-67 | 400 and nothing written when some extension is refused; otherwise every file is written and the URLs come back in order, or 500 |
| Files.FirstRefused | src/data/FileDataSource.ts:58-63 | the first name with a refused extension, or none exactly when all are allowed |
| Files.FileDataSource.DeleteFile | src/data/FileDataSource.ts:69-94 | exactly the target file is removed; 500 and nothing removed when there is none |
| Files.FileDataSource.GetFileFromSource | src/data/FileDataSource.ts:96-119 | a stored file is served with its content type; a missing one is 500 |
| Files.FileSources.GetInstance | src/data/FileDataSource.ts:16-20 | the first call creates the instance with the directory for its environment; later calls return that same instance |
| Url.Utf8 | src/data/FileDataSource.ts:49 | one to four bytes, and a single byte equal to the code exactly for an ASCII character |
| Url.HexDigit | src/data/FileDataSource.ts:49 | a digit or an upper-case letter A to F |
| Url.Percents | src/data/FileDataSource.ts:49 | three characters per byte, each `%` or an upper-case hexadecimal digit |
| Url.EncodeChar | src/data/FileDataSource.ts:49 | a character outside the set is copied; one inside becomes percent-escapes that belong to no set and hold no slash or backslash |
| Url.Encode | src/data/FileDataSource.ts:49 | the encoding is no shorter than the input, holds no character of its set, and adds no slash or backslash |
| Url.EncodeIdentity | src/data/FileDataSource.ts:49 | encoding leaves a string unchanged exactly when it holds no character of the set |
| Url.EncodeIdempotent | src/data/FileDataSource.ts:49 | encoding an encoded string changes nothing |
| Url.TrimEnd | src/data/FileDataSource.ts:79 | a prefix of the input that does not end with a control or space, the input itself when it already does not |
| Url.TrimStart | src/data/FileDataSource.ts:79 | a suffix of the input, the input itself when it does not start with a control or space |
| Url.RemoveTabNewline | src/data/FileDataSource.ts:79 | no tab, line feed or carriage return is left, and an input without them is unchanged |
| Url.Prepare | src/data/FileDataSource.ts:79 | an input made of printable characters is read as it is |
| Url.FirstOf | src/data/FileDataSource.ts:79-80 | the first position holding a stop character, or the length when there is none |
| Url.Slashes | src/data/FileDataSource.ts:79-80 | every backslash becomes a slash, every other character stays |
| Url.PathOf | src/data/FileDataSource.ts:49 | the path part of the name after encoding holds no path-set character and no backslash |
| Url.QueryFragment | src/data/FileDataSource.ts:49 | empty exactly when nothing follows the path; otherwise it starts with `?` or `#`; always printable |
| Url.Marked | src/data/FileDataSource.ts:49 | a query or fragment starts with its mark and is printable |
| Url.Tail | src/data/FileDataSource.ts:49-50 | what follows `/fotos/` in the URL starts with the encoded path, then `?` or `#` if anything more; all printable |
| Url.StripTrailingFacts | src/data/FileDataSource.ts:80 | stripping leaves a prefix of the input that does not end with the character, followed in the input only by that character |
| Url.Basename | src/data/FileDataSource.ts:80 | the basename holds no slash |
| Url.BasenameChars | src/data/FileDataSource.ts:80 | the basename is made of the path's characters and is empty only when the path is all slashes |
| Url.SkipSlashes | src/data/FileDataSource.ts:79 | a suffix of the input that starts with neither a slash nor a backslash |
| Url.HttpSchemeLength | src/data/FileDataSource.ts:79 | 5 for `http:`, 6 for `https:` in any case, 0 otherwise |
| Url.UrlBasename | src/data/FileDataSource.ts:79-80 | a basename read from a URL holds no slash |
| Url.UrlName | src/data/FileDataSource.ts:49-50 | the last path segment a name is published under is non-empty, holds no slash, no backslash and no character the path encodes |
| Url.UrlNameIdentity | src/data/FileDataSource.ts:49-50 | a name is its own last URL segment exactly when it is plain |
| Url.PublicUrlPrepared | src/data/FileDataSource.ts:49-50 | a published URL is read back without trimming or dropping anything |
| Url.OriginScheme | src/data/FileDataSource.ts:49-50 | a URL that starts with an origin is read as http or https, and two slashes follow the scheme |
| Url.OriginAuthority | src/data/FileDataSource.ts:49-50 | past those slashes the host runs exactly up to the published path |
| Url.FotosPath | src/data/FileDataSource.ts:49-50 | the path of a published URL is `/fotos/` followed by the encoded path of the name, cut at its query or fragment |
| Url.UrlBasenameOfPublicUrl | src/data/FileDataSource.ts:49-80 | reading back the URL a name is published under gives the name's last URL segment |
| Url.ReadBack | src/data/FileDataSource.ts:49-80 | an origin followed by `/fotos/` and a clean path, then a query or fragment or nothing, reads back as the basename of that path |
| Url.PathCleanFixed | src/data/FileDataSource.ts:80 | a clean path is left alone by the backslash reading and by path-encoding |
| Url.FirstOfPrefix | src/data/FileDataSource.ts:79-80 | the first stop in a concatenation is where the second part starts, when the first part holds no stop |
| Users.ListWithoutPasswords | src/presentation/usuario/usuario.controller.ts:22-25 | one record per user, in order, losing nothing but the password hash |
| Users.UserController.GetAllUsers | src/presentation/usuario/usuario.controller.ts:16-26 | every user once, in order, without the password hash |
| Users.UserController.GetUserInfo | src/presentation/usuario/usuario.controller.ts:28-34 | the user with that address, or 404 exactly when there is none |
| Users.IndexOfCorreo | src/presentation/usuario/usuario.controller.ts:48-49 | the position of the user found by address |
| Users.ReplaceKeepsUniqueCorreos | src/presentation/usuario/usuario.controller.ts:60 | saving a changed user keeps addresses unique, and the new record is found under its address |
| Users.RemoveByCorreo | src/presentation/usuario/usuario.controller.ts:40 | removing a user takes out exactly that row and keeps the others |
| Users.MergeProfile | src/presentation/usuario/usuario.controller.ts:50-54 | a missing or empty name keeps the old one; privacy changes only when given, to true exactly for "true"; address, hash, role and photo are kept |
| Users.MergeProfileIdempotent | src/presentation/usuario/usuario.controller.ts:50-54 | sending the same update twice has the effect of sending it once |
| Users.MergeProfileEmpty | src/presentation/usuario/usuario.controller.ts:50-54 | an update with no fields leaves the user as it was |
| Users.PhotoChange | src/presentation/usuario/usuario.controller.ts:56-59 | no photo, no change; a new photo is stored and the user's URL is its public URL; an old photo that cannot be deleted is 500 and the directory is unchanged |
| Users.PhotoChangeReadsBack | src/presentation/usuario/usuario.controller.ts:56-59 | the new photo URL reads back as the stored name spelled for a URL, which names a stored file when the uploaded name is path-clean |
| Users.EncodedPhotoBlocksChange | src/presentation/usuario/usuario.controller.ts:56-59 | a current photo published under a name that is not plain, with no file under its URL spelling, makes every photo change fail with 500 and keeps the directory |
| Users.UserController.ChangePhoto | src/presentation/usuario/usuario.controller.ts:56-59 | the directory and answer are those of the photo step |
| Users.UserController.UpdateUser | src/presentation/usuario/usuario.controller.ts:44-65 | 404 for an unknown address; otherwise the merged user with the photo step applied is saved, and the row is unchanged on failure |
| Users.UserController.DeleteUser | src/presentation/usuario/usuario.controller.ts:35-42 | 404 for an unknown address; a failing photo deletion is 500 and keeps the user; after the photo is deleted, a user with preferences is refused with 500; otherwise exactly that user is removed, together with every friendship edge touching them |
| Users.UserController.RemoveRow | src/presentation/usuario/usuario.controller.ts:40 | refused exactly when the user has a preferences row; otherwise exactly the row with that address is removed and the edges touching it cascade away |
| Users.UserController.DropEdges | src/data/model/Amigo.ts:26-32 | the edges become exactly the cascade of the old ones; users, itineraries and preferences are unchanged |
| Users.Cascade | src/data/model/Amigo.ts:26-32 | the edges left are exactly those not touching the deleted user |
| Users.CascadeLeavesNoEdge | src/data/model/Amigo.ts:26-32 | the deleted user is left with no edge |
| Users.CascadeFriendCount | src/data/model/Amigo.ts:26-32 | after the cascade another user's friend count drops by exactly the number of edges shared with the deleted user |
| Users.UserController.UpdatePassword | src/presentation/usuario/usuario.controller.ts:66-75 | 404 for an unknown address; otherwise only the hash changes, and the new password is then the one accepted |
| Users.UserController.VerifyPassword | src/presentation/usuario/usuario.controller.ts:76-85 | 404 exactly for an unknown address; otherwise true exactly when the stored hash is that password's |
| Users.SearchTravelers | src/presentation/usuario/usuario.controller.ts:87-109 | nothing for a missing term or one made only of white space (as `trim()` reads it, Unicode spaces included); at most ten public profiles whose name or user name contains the term; all of them when fewer than ten are returned |
| Users.Cards | src/presentation/usuario/usuario.controller.ts:99-108 | one card per user found, and only those |
| Users.UserController.Travelers | src/presentation/usuario/usuario.controller.ts:87-109 | at most ten cards, each of a public profile |
| Users.FindBySearch | src/presentation/usuario/usuario.controller.ts:112-121 | the first user whose user name, address or full name is the term, or none exactly when there is none |
| Users.ItinerarioName | src/presentation/usuario/usuario.controller.ts:143 | the itinerary's name, or "Itinerario" when it is empty: never empty |
| Users.ProfileOf | src/presentation/usuario/usuario.controller.ts:122-147 | the user's public fields plus one summary per loaded publication, each named itinerary with a non-empty name; none if loading failed |
| Users.UserController.GetProfileBySearch | src/presentation/usuario/usuario.controller.ts:111-148 | 404 exactly when no user matches the term; otherwise the profile of a matching user |
| Users.UserController.GetProfileByUsername | src/presentation/usuario/usuario.controller.ts:175-208 | 404 exactly when no user has the user name; otherwise that user's profile |
| Users.EdgesOf | src/presentation/usuario/usuario.controller.ts:166-170 | zero exactly when no edge touches the user |
| Users.EdgesOfIgnoresStatus | src/presentation/usuario/usuario.controller.ts:166-170 | the friend count ignores edge status, so accepting, rejecting or blocking a request does not change it |
| Users.ItinerariesOf | src/presentation/usuario/usuario.controller.ts:155-158 | zero exactly when the user owns no itinerary |
| Users.UserController.GetItineraryCount | src/presentation/usuario/usuario.controller.ts:151-161 | 404 exactly for an unknown address; otherwise the number of the user's itineraries |
| Users.UserController.GetFriendsCount | src/presentation/usuario/usuario.controller.ts:162-173 | 404 exactly for an unknown address; otherwise the number of edges touching the user |
| Users.UserController.DeleteUserByUsername | src/presentation/usuario/usuario.controller.ts:209-234 | 404 for an unknown user name; otherwise, for the first user with that name, the photo deletion is attempted and its failure ignored; then a user with preferences is refused with 500, and otherwise exactly that user is removed with every friendship edge touching them |
| Text.LowerChar | src/presentation/amigo/amigo.controller.ts:208-210 | A to Z and the Latin-1 capitals but × become the letter 32 code points above; every other character is kept, and no folded capital remains |
| Text.LowerIdempotent | src/presentation/amigo/amigo.controller.ts:208-210 | lower-casing twice is lower-casing once |
| Text.ParseInt | src/presentation/itinerario/itinerario.controller.ts:101 | NaN exactly when no digit of the base follows the white space (ECMAScript white space and line terminators), the sign and any "0x" prefix |
| Text.ParseMagnitude | src/presentation/itinerario/itinerario.controller.ts:101 | the unsigned part is NaN exactly when no digit of its base starts it, and is never negative |
| Text.ParseIntUnsigned | src/presentation/itinerario/itinerario.controller.ts:101 | text with no leading space or sign is read as its unsigned part |
| Text.ParseIntHex | src/presentation/itinerario/itinerario.controller.ts:101 | a "0x" or "0X" prefix reads the hexadecimal digits after it, and with none is NaN |
| Text.ParseIntRoundTrip | src/presentation/itinerario/itinerario.controller.ts:101 | `parseInt` reads back the decimal rendering of an id |
| Text.Lower | src/presentation/amigo/amigo.controller.ts:208-210 | the same length, each character folded |
| Text.ReplaceFirst | src/data/FileDataSource.ts:72 | unchanged when the pattern does not occur; otherwise the first occurrence replaced |
| Text.StripLeadingFacts | src/data/FileDataSource.ts:72 | what is left is a suffix not starting with the character, after a run of it |
| Text.AfterLast | src/data/FileDataSource.ts:36 | a suffix free of the separator, preceded by the separator when shorter than the text |
| Text.NatToStringRoundTrip | src/data/FileDataSource.ts:42 | the decimal rendering of a number reads back as that number |
| Seqs.Filter | src/presentation/amigo/amigo.controller.ts:210 | exactly the elements that pass the test, each as often as in the input |
| Seqs.FilterDropsIff | src/presentation/reporte/index.ts:82 | a delete affects some row exactly when some row matches |
| Seqs.FilterAppend | src/presentation/itinerario/itinerario.controller.ts:169-188 | filtering rows joined one itinerary after another filters each itinerary's rows |
| Seqs.Take | src/presentation/itinerario/itinerario.controller.ts:195 | the first `n` elements, or all when fewer |
| Seqs.TakePrefix | src/presentation/itinerario/itinerario.controller.ts:195 | a limit within the first part takes from that part only |
| Seqs.SortDesc | src/presentation/publicacion/publicacion.controller.ts:155-157 | non-increasing by key, a permutation, and elements of equal key in their input order (a stable sort) |
| Seqs.SortAsc | src/sockets/socketHandler.ts:36 | non-decreasing by key, a permutation, and elements of equal key in their input order |
| Domain.FindByCorreo | src/presentation/auth/auth.controller.ts:21-24 | the first user with that address, or none exactly when there is none |
| Domain.FindByUsername | src/presentation/auth/auth.controller.ts:27-30 | the first user with that user name, or none exactly when there is none |
| Domain.FindByCorreoOrUsername | src/presentation/amigo/amigo.controller.ts:47-55 | the first user whose address or user name is the key, or none exactly when there is none |
| Auth.StoredRole | src/presentation/auth/auth.controller.ts:40 | admin exactly when "admin" is asked for, otherwise user, never moderator |
| Auth.AdminRouteRole | src/presentation/usuario/index.ts:141-149 | the administrators' route forwards "admin" exactly when asked, otherwise "user" |
| Auth.RoleForwardedAsWritten | src/presentation/auth/index.ts:16-21 | the public route forwards the body's role unchanged |
| Auth.SelfPromotionAsWritten | src/presentation/auth/index.ts:16-21 | anyone can register an administrator through the public route, without a token |
| Auth.RoleForwarded | src/presentation/auth/index.ts:16-21 | the corrected public route forwards no role; the administrators' route forwards the one asked for |
| Auth.PublicRegisterNeverAdmin | src/presentation/auth/index.ts:16-21 | with the correction the public route only stores ordinary users, and the administrators' route is unchanged |
| Auth.NewUser | src/presentation/auth/auth.controller.ts:33-46 | the new row keeps only the password's hash, which accepts that password, with the stored role, a public profile and the photo URL |
| Auth.FindAppended | src/presentation/auth/auth.controller.ts:46 | a user appended under a new address is the one found under it, and addresses stay unique |
| Auth.AuthController.DoRegister | src/presentation/auth/auth.controller.ts:15-49 | 409 for a taken address, then 409 for a taken user name; the photo is saved only when sent, and a failed save is 500 with no user; on success the user is appended and can log in with the password |
| Auth.AuthController.Register | src/presentation/auth/index.ts:16-21 | a user registered through the public route is an ordinary user; through the administrators' route it has the role asked for; it models the corrected public route of the third Findings row (`Auth.PublicRegisterNeverAdmin`), not the code as written |
| Auth.AuthController.DoLogin | src/presentation/auth/auth.controller.ts:50-64 | 401 for an unknown address or a wrong password; with unique addresses, success exactly when a stored user has that address and password |
| AuthService.StripBearer | src/presentation/services/auth.service.ts:30 | a token without the prefix is unchanged, and the result is never longer |
| AuthService.StripBearerOfHeader | src/presentation/services/auth.service.ts:30 | "Bearer " followed by a token gives back the token |
| AuthService.AuthRole | src/presentation/services/auth.service.ts:41-54 | 403 exactly when the role differs from the required one |
| AuthService.AuthStore.BeforeHandle | src/presentation/services/auth.service.ts:19-39 | 400 without a header, 401 for a token that fails verification (store unchanged); otherwise the store holds the verified identity, and a guard then admits exactly its role |
| AuthService.AuthStore.Guard | src/presentation/services/auth.service.ts:41-54 | the stored identity passes exactly when it has the required role |

## Left out

- The Socket.IO transport itself: sockets, rooms and emits are an outbox of addressed events plus a map of live sockets. Acknowledgements, reconnection timing and the transport's buffering are not modelled.
- The database (TypeORM over PostgreSQL): every table is a sequence of records, and every query is a filter over it. SQL `ILIKE` wildcards in search terms are not given their special meaning. `Like` is containment after `Text.Lower` on both sides, so it inherits the folding limit below.
- Foreign keys are modelled where an operation's outcome depends on them and the entity declaring them is part of this model: message senders and recipients, edge ends as registered users, the places of the activities an itinerary update writes, the reporter of a report, and the friendship edges and preferences rows of a deleted user.
- Users.UserController.DeleteUser, Users.UserController.DeleteUserByUsername: the itinerary table is stated unchanged and the tables of publications, reviews, reports, messages and notifications are not held by the user controller. The entity files of itineraries, publications, reviews and reports are not part of this model, so what the database does with those rows (cascade, or a refusal like the preferences one) is not modelled.
- LowerChar: folds only A to Z and the Latin-1 capitals (À to Þ, not ×). `toLowerCase` and PostgreSQL's `ILIKE` also fold the capitals of other scripts (Latin Extended, Greek, Cyrillic) and capitals whose small form is longer (İ). `Friendship.AmigoController.SearchFriend`, `Users.SearchTravelers` and `Itineraries.ItinerarioController.Buscar` compare with this folding.
- ParseInt: reads exact integers. JavaScript numbers lose precision beyond 2^53, and `parseInt` reads more than about 309 digits as `Infinity`; an id that long is not modelled.
- `Users.UserController.Travelers`: promises only the bound and that each card is a public profile. The full contract is on `Users.SearchTravelers`.
- The `/user` token check of the socket middleware, the JWT verification of the hook, `Date.now()` and `Math.random()` are parameters. The password hash (`Bun.password`) is the injective stand-in `Domain.Hash`.
- Accent removal (`sinAcentos`) is a function parameter. The publications use case the profile views call is a parameter holding its result.
- The average rating of a publication is a stored integer, and the feed only orders by it. `getAverageRating` (`src/presentation/publicacion/publicacion.controller.ts:30-35`) is modelled only through its id guard, `Publications.ValidId`.
- The share use case behind `shareItinerary` is not part of this model. Only the request it receives and the photo loop are.
- The file system (`fs`, `path`): the upload directory is the set of names it holds. A name containing a slash stands for a write that fails. `path.join` is not modelled further: a stored name is a single segment.
- URL parsing follows the URL Standard only for what these two calls meet. The host URL is taken as a serialized http or https origin: lower-case, with no path, no user information and no default port. Host parsing and validation (IDNA, IPv6, percent-decoding of the host), dot segments (`.` and `..`) in the path, other schemes and relative URLs in `deleteFile` are not modelled. An input the model reads as having no host gives no segment, as when the parser throws.
- `Files.FileDataSource.SaveFiles`: the `Promise.all` writes run concurrently; the model applies them as one update. It does not model partial writes when one of them fails, which the source leaves in place.
- Concurrency between socket events and HTTP requests: every handler runs to completion in the model, so the interleavings at `await` points are not modelled.
- `store.user` starts as `{}`: modelled as a payload of empty strings, which no role matches.
- `reporte.getAll` (`src/presentation/reporte/reporte.controller.ts:99-103`) returns the whole table and states nothing to prove. `getAdminDetail` is `GetById` with more relations loaded.
- The in-memory message store in the socket module is never used, and the route files are left out except the small mappings cited above.
- `Friendship.FirstMatch`: the order in which the database returns rows for `findOne` without `order` is taken to be table order.

## Findings

| source | as written | input that shows it | evidently intended | confidence | as-written member | corrected member |
|---|---|---|---|---|---|---|
| src/presentation/publicacion/publicacion.controller.ts:99 | the fallback to an empty list after `await listFriend(me)` is never reached: `listFriend` throws 400 when the user has no FRIEND edge (`src/presentation/amigo/amigo.controller.ts:193-194`) | a user with publications and no friends asks for their feed and gets 400 | a friendless user gets a feed with an empty friends' segment | not executed | Publications.PublicacionController.GetMyPublicationsAsWritten | Publications.FeedFriends |
| src/presentation/amigo/amigo.controller.ts:44-55 | the self-request check compares the two raw arguments before they are resolved to users | sender "ana@mail.mx" and receiver "ana", both naming the same single user, give a PENDING edge from ana to herself | a request to oneself is refused with 400 whatever names are used | not executed | Friendship.SelfRequestPassesAsWritten | Friendship.SelfRequestRefused |
| src/presentation/auth/index.ts:16-21 | the public register route passes the body, `role` included, to `doRegister`, which stores "admin" when asked (`src/presentation/auth/auth.controller.ts:40`) | an anonymous POST with role "admin" creates an administrator, although `/user/admin/register` requires an admin token for that | the public route registers ordinary users only | not executed | Auth.SelfPromotionAsWritten | Auth.PublicRegisterNeverAdmin |
