# Chat backend: policy and integrity layer, modelled in Dafny

This project models the core of a small chat backend (accounts, chats, messages and chat
memberships behind an HTTP API). The model covers:

- the store and every query over it (`backend/queries.py`);
- the error taxonomy and its HTTP responses (`backend/exceptions.py`);
- token claims, credential checks and token classification (`backend/auth.py`);
- the choice of token source (`backend/dependencies.py`);
- the route handlers' identity checks, status choices and list counts (`backend/main.py`).

Modules, one per concern:

- `Options`, `Decimal` — an `Option` type; `str(int)` and `int(str)` on decimal numerals, with
  their round trip.
- `Errors` — the nine exception classes as one datatype `ApiError`, plus each class's status,
  slug and message text.
- `Tables` — a table is a sequence of `Row(id, data)` in ascending id order. The module holds
  the primitive lookups `session.get`, `.where(...).first()`, filtered select, field update
  and delete.
- `Queries` — the store is the class `ChatStore`. Its fields are the account, chat and message
  tables, the membership set, and the next id of each table.
  - Every lookup and guard is a function.
  - Every mutating query is a method. It checks its preconditions in the source's order and
    either fails with the source's error, changing nothing, or commits.
  - Its full outcome is stated by a two-state predicate `<Op>Done`, which the route handlers
    reuse.
  - `Valid()` (keys increasing and below the next id), `OwnersAreMembers()` and `UniqueValues()`
    are the store invariants. Each is proved preserved by the value-level lemmas
    (`ChatAdded`, `AccountChanged`, …) that the methods call.
- `Auth` — claims, credential validation, token issue and token classification.
- `Dependencies` — bearer-or-cookie token selection and current-account resolution.
- `Handlers` — the routes.

Owner-is-member is kept by every operation but is not assumed of every store: the source's
test fixture builds a chat whose owner is not a member. So every mutating method and every
mutating route promises `old(OwnersAreMembers()) ==> OwnersAreMembers()`; the same holds for
uniqueness.

Facts about the program that the model reproduces:

- **Any chat's name is a duplicate.** `update_chat` rejects a name held by any chat, the chat
  itself included (backend/queries.py:113-114, 377-381). So renaming a chat to its own name
  fails (`Queries.ChatStore.RenameToOwnName`).
- **The owner must exist.** `create_chat` checks that the owner account exists (404) before the
  name check (backend/queries.py:86-89).
- **Chat deletion removes the chat row only** (backend/queries.py:131-136). No cascade onto
  memberships or messages is modelled, because the database schema is not part of this model.
- **Chat creation commits twice**, first the chat and then the owner's membership
  (backend/queries.py:93-100). The model has no failure between the two commits.

## Model

| member | source | states |
|---|---|---|
| Errors.ResponseNamesClass | backend/exceptions.py:10-155 | two error responses carry the same "error" field exactly when they come from the same exception class, and then they carry the same status |
| Errors.StatusClasses | backend/exceptions.py:10-155 | 404 exactly for ModelDNE; 422 exactly for duplicate, membership and owner-removal; 401 exactly for bad credentials; 403 exactly for the four session/access errors |
| Errors.SlugsDistinct | backend/exceptions.py:14-153 | two error classes share a slug only if they are the same class |
| Errors.NotFoundMessageNamesId | backend/exceptions.py:7-8 | for one entity name, two not-found messages are equal exactly when their ids are |
| Decimal.Show | backend/auth.py:24 | `str(id)` is a non-empty numeral that starts with '-' exactly for negative ids |
| Decimal.ParseShow | backend/auth.py:37 | `int(str(n)) == n` for every integer n |
| Decimal.Parse | backend/auth.py:37 | `int(sub)` accepts exactly an optional '+' or '-' followed by a non-empty run of ASCII digits; a negative result comes only with a leading '-' |
| Decimal.ShowInjective | backend/auth.py:24 | distinct ids give distinct subject strings |
| Tables.Get | backend/queries.py:339 | a primary-key lookup finds a row exactly when the key is present, and the row it returns is in the table |
| Tables.GetExact | backend/queries.py:350 | with unique keys, the lookup of a key returns exactly the row stored under it |
| Tables.FirstWith | backend/queries.py:32-35 | `.first()` returns a row holding the value, and returns nothing exactly when no row holds it |
| Tables.Where | backend/queries.py:58-62 | a filtered select keeps exactly the rows satisfying the filter, in ascending key order |
| Tables.Put | backend/queries.py:165-166 | updating one row replaces exactly the row with that key; every other row stays, in place |
| Tables.Remove | backend/queries.py:135-136 | deleting a row leaves exactly the other rows, still in key order |
| Queries.IsAccountChatOwner | backend/queries.py:415-417 | fails with owner-removal exactly when the account owns the chat |
| Queries.Detached | backend/queries.py:423-431 | the account's messages in the chat lose their author; ids, texts, chats and timestamps of all messages are kept; every other message is untouched |
| Queries.DetachedKeepsMessages | backend/queries.py:423-431 | detaching deletes no message (same keys), leaves no message of the account in the chat, and keeps every other message |
| Queries.ChatAdded | backend/queries.py:84-102 | a new chat with a fresh id and a free name, plus its owner's membership, keeps keys valid, owners members and names unique; the owner is the new chat's only member |
| Queries.ChatChanged | backend/queries.py:108-125 | renaming to a free name and handing the chat to a member keeps keys, owners-are-members and unique names |
| Queries.ChatsDropped | backend/queries.py:131-136 | removing chats keeps keys bounded, owners members and names unique |
| Queries.MembershipAdded | backend/queries.py:188-206 | adding a membership to an existing chat keeps memberships referring to handed-out chats and owners members |
| Queries.MembershipRemoved | backend/queries.py:212-227 | removing a non-owner's membership keeps every owner a member |
| Queries.MemberDetached | backend/queries.py:212-227 | removing a membership and detaching messages keeps every chat reference valid |
| Queries.AccountAdded | backend/queries.py:234-257 | an account with a fresh id and free username and email keeps keys valid and both columns unique |
| Queries.AccountChanged | backend/queries.py:274-299 | changing an account to values no other account holds keeps keys valid and usernames and emails unique |
| Queries.NotTakenByOther | backend/queries.py:278-293 | when the duplicate test lets a new username or email through, no other account holds it |
| Queries.FirstMatchIsOther | backend/queries.py:278-293 | once a new value differs from the account's current one, the first account holding it is never that account itself, so the `existing.id != id` test always holds |
| Queries.ChatStore.ChatExists | backend/queries.py:338-344 | succeeds exactly for a present chat id, with that chat; fails with chat not-found |
| Queries.ChatStore.AccountExists | backend/queries.py:348-354 | succeeds exactly for a present account id, with that account; fails with account not-found |
| Queries.ChatStore.AccountInChatMembership | backend/queries.py:359-371 | succeeds exactly when the account exists and holds the membership; a missing account and a missing membership give the same membership-required error |
| Queries.ChatStore.CheckDuplicateChatName | backend/queries.py:377-381 | fails with duplicate-name exactly when some chat, any chat, holds the name |
| Queries.ChatStore.OwnerExistsInMembership | backend/queries.py:387-399 | fails with membership-required exactly when the proposed owner is not an existing member |
| Queries.ChatStore.VerifyMessage | backend/queries.py:405-409 | succeeds exactly when the message exists in that chat; a message of another chat is reported as message not-found |
| Queries.ChatStore.GetAccounts | backend/queries.py:15-18 | every account exactly once, ascending by id |
| Queries.ChatStore.GetAccount | backend/queries.py:24-26 | the account with that id, or account not-found exactly when there is none |
| Queries.ChatStore.GetAccountByUsername | backend/queries.py:32-35 | an account with that username, or nothing exactly when no account has it |
| Queries.ChatStore.GetChats | backend/queries.py:41-44 | every chat exactly once, ascending by id |
| Queries.ChatStore.GetChat | backend/queries.py:50-52 | the chat with that id, or chat not-found exactly when there is none |
| Queries.ChatStore.GetMessages | backend/queries.py:58-62 | chat not-found exactly for a missing chat; otherwise exactly the chat's messages, ascending by id |
| Queries.ChatStore.GetChatIdAccounts | backend/queries.py:68-78 | chat not-found exactly for a missing chat; otherwise exactly the accounts holding a membership of it, ascending by id |
| Queries.ChatStore.GetVerifiedUser | backend/queries.py:263-268 | returns an account with that username whose hash verifies the password; unknown user and wrong password both give invalid-credentials; with unique usernames, success exactly when such an account exists |
| Queries.ChatStore.CreateChat | backend/queries.py:84-102 | account not-found for a missing owner, then duplicate-name if any chat has the name, each changing nothing; else exactly one chat with a fresh id and the membership (owner, new id) are added, and the owner is its only member; invariants kept |
| Queries.ChatStore.UpdateChat | backend/queries.py:108-125 | chat not-found, then duplicate-name (any chat, itself included), then membership-required for the owner, each changing nothing; else only the given fields of that chat change; invariants kept |
| Queries.ChatStore.DeleteChat | backend/queries.py:131-136 | chat not-found changing nothing; else only that chat row is removed; invariants kept |
| Queries.ChatStore.CreateMessage | backend/queries.py:142-152 | chat not-found, then membership-required for an absent account or a non-member, each changing nothing; else exactly one message with the given text, author and chat is appended under a fresh id |
| Queries.ChatStore.UpdateMessage | backend/queries.py:158-168 | chat not-found, then message not-found for an absent id or a message of another chat; else only that message's text changes |
| Queries.ChatStore.DeleteMessage | backend/queries.py:174-182 | chat not-found, then message not-found as for update; else only that message is removed |
| Queries.ChatStore.AddAccountAsChatMember | backend/queries.py:188-206 | chat not-found, then account not-found; an existing membership is returned with flag false and nothing changes; otherwise it is inserted with flag true |
| Queries.ChatStore.AddMembershipTwice | backend/queries.py:188-206 | when the first add succeeds, it returns that membership; the second answers "not newly created"; the two calls together add at most that one membership and change nothing else; a failing add fails the same way twice and changes nothing |
| Queries.ChatStore.DeleteAllMessages | backend/queries.py:423-431 | the loop leaves the message table equal to `Detached` of the old one and touches nothing else; owners stay members and values stay unique |
| Queries.ChatStore.DeleteChatMembership | backend/queries.py:212-227 | chat not-found, then membership-required, then owner-removal, each changing nothing; else the pair is removed and the member's messages in the chat are detached, none deleted; owners stay members |
| Queries.ChatStore.RegisterAccount | backend/queries.py:234-257 | duplicate username, then duplicate email, each changing nothing; else one account is appended whose stored hash verifies the password; usernames and emails stay unique |
| Queries.ChatStore.UpdateAccount | backend/queries.py:274-299 | account not-found; a value equal to the current one is skipped; a value another account holds is a duplicate, username checked before email, each changing nothing; else only that account's username and email change; uniqueness kept |
| Queries.ChatStore.UpdatePassword | backend/queries.py:305-313 | account not-found, then invalid-credentials unless the old password verifies, each changing nothing; else only that account's hash changes, to one verifying the new password |
| Queries.ChatStore.DeleteAccount | backend/queries.py:319-329 | account not-found, then owner-removal whenever some chat is owned by the account, each changing nothing; else only that account is removed |
| Queries.ChatStore.RenameToOwnName | backend/queries.py:377-381 | renaming a chat to the name it already has fails as a duplicate and changes nothing |
| Auth.GenerateClaims | backend/auth.py:21-24 | exp is iat + 3600, iss is "http://127.0.0.1", the subject is the canonical decimal text `str(id)`, and it parses back to the account id |
| Auth.ValidateCredentials | backend/auth.py:26-29 | succeeds exactly for a present account whose hash verifies the password, returning that account unchanged; otherwise the single invalid-credentials error |
| Auth.GenerateToken | backend/auth.py:15-19 | a token is issued only for an account with that username whose hash verifies the password, with that account's claims; with unique usernames, a token is issued exactly when such an account exists; otherwise invalid-credentials |
| Auth.ExtractAccount | backend/auth.py:31-41 | expired exactly for signed claims with exp before now; every other failure (undecodable, non-numeric subject, account gone) is invalid-token; success exactly for a live token naming a present account, which is returned |
| Auth.IssuedTokenIdentifies | backend/auth.py:21-41 | the claims issued for an account resolve to exactly that account until iat + 3600 and are expired afterwards |
| Auth.IssuedTokenAuthenticates | backend/auth.py:15-41 | a token from `generate_token` resolves, before expiry, to an account with that username whose hash verifies the password |
| Dependencies.GetToken | backend/dependencies.py:31-39 | the bearer token whenever present, even with a cookie; else a non-empty cookie; else authentication-required exactly when neither is present |
| Dependencies.GetCurrentAccount | backend/dependencies.py:41-45 | authentication-required without a token; otherwise exactly `extract_account` of the selected token; any failure answers 403 |
| Handlers.Summaries | backend/main.py:101 | one summary per account, in order, carrying its id and username |
| Handlers.ListAccounts | backend/main.py:96-102 | `metadata.count` equals the number of listed accounts, which are exactly the store's accounts, ascending by id |
| Handlers.ListChats | backend/main.py:125-131 | `metadata.count` equals the number of listed chats, which are exactly the store's chats, ascending by id |
| Handlers.ListMessages | backend/main.py:145-151 | chat not-found for a missing chat; otherwise `metadata.count` equals the number of listed messages, exactly those of the chat, ascending by id |
| Handlers.ListMembers | backend/main.py:157-163 | chat not-found for a missing chat; otherwise `metadata.count` equals the number listed, and the items are exactly the {id, username} summaries of existing accounts holding a membership of the chat, ascending by id |
| Handlers.CurrentAccountRoute | backend/main.py:108-111 | the caller's own id, username and email, without the hash |
| Handlers.AccountRoute | backend/main.py:117-119 | any account by id, shown as its id and username only; account not-found exactly when it is absent |
| Handlers.CreateChatRoute | backend/main.py:170-174 | an owner other than the caller is access-denied ("chat") before any store check and changes nothing; otherwise exactly `create_chat` |
| Handlers.CreateMessageRoute | backend/main.py:196-200 | an author other than the caller is access-denied ("message") before the chat and membership checks; otherwise exactly `create_message` |
| Handlers.AddMemberRoute | backend/main.py:222-235 | status 201 exactly when the membership was new, 200 otherwise; the body echoes chat_id and account_id; not-found for a missing chat or account |
| Handlers.UpdateAccountRoute | backend/main.py:289-292 | updates the caller's own account, and only it, returning it without the hash |
| Handlers.UpdatePasswordRoute | backend/main.py:298-305 | changes the caller's own password only |
| Handlers.DeleteAccountRoute | backend/main.py:311-313 | deletes the caller's own account only |
| Handlers.RegisterRoute | backend/main.py:250-253 | registers and returns the new account without the hash |
| Handlers.UpdateChatRoute | backend/main.py:180-182 | any request may update any chat: exactly `update_chat`, with no identity check |
| Handlers.DeleteChatRoute | backend/main.py:188-190 | exactly `delete_chat`, with no identity check |
| Handlers.UpdateMessageRoute | backend/main.py:206-208 | exactly `update_message`, with no identity check |
| Handlers.DeleteMessageRoute | backend/main.py:214-216 | exactly `delete_message`, with no identity check |
| Handlers.DeleteMemberRoute | backend/main.py:241-243 | exactly `delete_chat_membership`, with no identity check |

## Left out

- Password hashing is abstracted. bcrypt is a pair of functions `hash`/`verify` with the one
  assumed law verify(p, hash(p)), carried as `Sound(hasher)` in `Valid()`; salts and
  randomness are not modelled.
- JWT signing and decoding are abstracted. A token is issued as its claims. Decoding a
  presented token is a parameter of `GetCurrentAccount` that yields either the signed claims
  or a failure.
  - A signed payload whose claims are malformed but whose `exp` has passed is folded into
    "undecodable" (invalid token).
  - The decoder checks expiry before the claims' shape, so the source reports such a token as
    expired.
- The clock is a parameter: the current time in whole seconds.
- The secret key is not modelled.
- `Decimal.Parse`: Python's `int()` also accepts surrounding whitespace, `_` separators and
  non-ASCII digits; `Parse` does not. Subjects the model issues are plain numerals.
- `created_at` is an opaque value passed to `CreateMessage`; its database default is not part
  of this model.
- Ids come from per-table counters above every id ever used. This abstracts the database's
  row ids.
- `Queries.ChatStore.CreateChat`: "the owner is the new chat's only member" (also in
  `Queries.ChatAdded`) relies on that counter never handing out an id twice.
  - Whether the database may reuse the id of a deleted chat depends on a schema that is not
    part of this model. Without AUTOINCREMENT, SQLite hands out max(rowid)+1.
  - With reuse, and with chat deletion not cascading, a chat created after deleting the newest
    chat would find the old chat's memberships and messages under its id.
- Database sessions, commit/refresh, engine and file setup, application lifespan, CORS and
  exception-handler registration are not modelled. A failed operation commits nothing.
  - The in-session dirty state of the source is not kept. For example, `update_chat` sets the
    name before a later owner check can fail.
- Create-chat's two separate commits are one step in the model, so the half-done state after
  the first commit is not represented.
- Chat deletion cascading onto memberships and messages is not modelled. The schema that would
  define it is not part of this model.
- `Queries.ChatStore.GetVerifiedUser`: `one_or_none` raises when several accounts share a
  username. The model takes the first such account, and its exact success condition is
  stated only for stores with unique usernames, which every operation preserves.
- `/auth/token` and `/auth/web/login` (backend/main.py:259-275) wrap `generate_token`, which is
  modelled as `Auth.GenerateToken`; the login route puts the token in a cookie. Cookie
  transport is not modelled.
- `/auth/web/logout` (backend/main.py:281-283) requires an authenticated caller, so without a
  valid token it answers 403 like every other route on `Dependencies.GetCurrentAccount`. It
  then deletes the cookie, which is not modelled. `/status` does nothing.
- `GET /chats/{id}` (backend/main.py:137-139) returns the chat row as `get_chat` finds it; it is
  covered by `Queries.ChatStore.GetChat`. `GET /accounts/{id}` is `Handlers.AccountRoute`.
- A `caller` argument of a handler stands for the account `Dependencies.GetCurrentAccount`
  resolved for the request. Dependency injection itself is not modelled.
- The bearer and cookie inputs are what the framework's security schemes yield: absent when
  the header or cookie is missing. Header parsing is not modelled.
- The frontend and the pydantic request and response models are outside this model. Response
  shapes appear as `AccountSummary`, `Registration`, `Listing` and `MemberReply`.
