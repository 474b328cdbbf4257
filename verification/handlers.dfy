/**
 * The HTTP route handlers: list responses with their counts, the caller-identity checks in
 * front of chat and message creation, the 200/201 choice of add-membership, and routes that
 * act on the authenticated caller's own account. A handler that takes `caller` runs only after
 * the request's token resolved to that account (see Dependencies.GetCurrentAccount); the
 * handlers without it run for any request, authenticated or not.
 */
module Handlers {
  import opened Options
  import opened Tables
  import opened Errors
  import opened Queries

  /** An account as listed: id and username only. */
  datatype AccountSummary = AccountSummary(id: int, username: string)

  /** An account as shown to its owner: everything but the password hash. */
  datatype Registration = Registration(id: int, username: string, email: string)

  /** A list response: `metadata.count` and the items. */
  datatype Listing<T> = Listing(count: int, items: seq<T>)

  /** Body and status of a successful add-membership request. */
  datatype MemberReply = MemberReply(status: int, chatId: int, accountId: int)

  function Summaries(accounts: seq<Row<Account>>): (r: seq<AccountSummary>)
    ensures |r| == |accounts|
    ensures forall i :: 0 <= i < |r| ==> r[i] == AccountSummary(accounts[i].id, accounts[i].data.username)
  {
    seq(|accounts|, i requires 0 <= i < |accounts| => AccountSummary(accounts[i].id, accounts[i].data.username))
  }

  function AsRegistration(a: Row<Account>): (r: Registration)
    ensures r.id == a.id && r.username == a.data.username && r.email == a.data.email
  {
    Registration(a.id, a.data.username, a.data.email)
  }

  // ---------------------------------------------------------------- list routes

  /** GET /accounts: every account, by ascending id, counted. */
  function ListAccounts(db: ChatStore): (r: Listing<AccountSummary>)
    reads db
    requires db.Valid()
    ensures r.count == |r.items| == |db.accounts|
    ensures forall s {:trigger s in r.items} :: s in r.items <==>
      exists a {:trigger a in db.accounts} :: a in db.accounts && s == AccountSummary(a.id, a.data.username)
    ensures forall i, j :: 0 <= i < j < |r.items| ==> r.items[i].id < r.items[j].id
  {
    var accounts := db.GetAccounts();
    var items := Summaries(accounts);
    assert forall s {:trigger s in items} :: s in items ==>
      exists a {:trigger a in accounts} :: a in accounts && s == AccountSummary(a.id, a.data.username)
    by {
      forall s | s in items ensures exists a {:trigger a in accounts} :: a in accounts && s == AccountSummary(a.id, a.data.username) {
        var i :| 0 <= i < |items| && items[i] == s;
        assert accounts[i] in accounts;
      }
    }
    assert forall a {:trigger a in accounts} :: a in accounts ==> AccountSummary(a.id, a.data.username) in items by {
      forall a | a in accounts ensures AccountSummary(a.id, a.data.username) in items {
        var i :| 0 <= i < |accounts| && accounts[i] == a;
        assert items[i] == AccountSummary(a.id, a.data.username);
      }
    }
    Listing(|accounts|, items)
  }

  /** GET /chats: every chat, by ascending id, counted. */
  function ListChats(db: ChatStore): (r: Listing<Row<Chat>>)
    reads db
    requires db.Valid()
    ensures r.count == |r.items|
    ensures Increasing(r.items) && forall c :: c in r.items <==> c in db.chats
  {
    var chats := db.GetChats();
    Listing(|chats|, chats)
  }

  /** GET /chats/{chat_id}/messages: the chat's messages, by ascending id, counted; a missing chat is not found. */
  function ListMessages(db: ChatStore, chatId: int): (r: Outcome<Listing<Row<Message>>>)
    reads db
    requires db.Valid()
    ensures r.Err? <==> chatId !in Keys(db.chats)
    ensures r.Err? ==> r.error == ModelDNE("chat", chatId)
    ensures r.Ok? ==> r.value.count == |r.value.items| && Increasing(r.value.items)
    ensures r.Ok? ==> forall m {:trigger m in r.value.items} {:trigger m in db.messages} ::
      m in r.value.items <==> m in db.messages && m.data.chatId == chatId
  {
    var messages := db.GetMessages(chatId);
    if messages.Err? then Err(messages.error) else Ok(Listing(|messages.value|, messages.value))
  }

  /** GET /chats/{chat_id}/accounts: the chat's members, by ascending id, counted; a missing chat is not found. */
  function ListMembers(db: ChatStore, chatId: int): (r: Outcome<Listing<AccountSummary>>)
    reads db
    requires db.Valid()
    ensures r.Err? <==> chatId !in Keys(db.chats)
    ensures r.Err? ==> r.error == ModelDNE("chat", chatId)
    ensures r.Ok? ==> r.value.count == |r.value.items|
    ensures r.Ok? ==> forall a {:trigger a in db.accounts} :: a in db.accounts && Membership(a.id, chatId) in db.memberships ==>
      AccountSummary(a.id, a.data.username) in r.value.items
    ensures r.Ok? ==> forall s {:trigger s in r.value.items} :: s in r.value.items ==>
      Membership(s.id, chatId) in db.memberships
    ensures r.Ok? ==> forall s {:trigger s in r.value.items} :: s in r.value.items <==>
      exists a {:trigger a in db.accounts} ::
        && a in db.accounts && Membership(a.id, chatId) in db.memberships
        && s == AccountSummary(a.id, a.data.username)
    ensures r.Ok? ==> forall i, j :: 0 <= i < j < |r.value.items| ==> r.value.items[i].id < r.value.items[j].id
  {
    var members := db.GetChatIdAccounts(chatId);
    if members.Err? then Err(members.error)
    else
      var items := Summaries(members.value);
      assert forall s {:trigger s in items} :: s in items ==>
        exists a {:trigger a in db.accounts} ::
          && a in db.accounts && Membership(a.id, chatId) in db.memberships
          && s == AccountSummary(a.id, a.data.username)
      by {
        forall s | s in items
          ensures exists a {:trigger a in db.accounts} ::
            && a in db.accounts && Membership(a.id, chatId) in db.memberships
            && s == AccountSummary(a.id, a.data.username)
        {
          var i :| 0 <= i < |items| && items[i] == s;
          assert members.value[i] in members.value;
        }
      }
      assert forall a {:trigger a in members.value} :: a in members.value ==>
        AccountSummary(a.id, a.data.username) in items
      by {
        forall a | a in members.value ensures AccountSummary(a.id, a.data.username) in items {
          var i :| 0 <= i < |members.value| && members.value[i] == a;
          assert items[i] == AccountSummary(a.id, a.data.username);
        }
      }
      assert forall s {:trigger s in items} :: s in items ==> Membership(s.id, chatId) in db.memberships by {
        forall s | s in items ensures Membership(s.id, chatId) in db.memberships {
          var i :| 0 <= i < |items| && items[i] == s;
          assert members.value[i] in members.value;
        }
      }
      Ok(Listing(|members.value|, items))
  }

  /** GET /accounts/me: the caller's own account, without the hash. */
  function CurrentAccountRoute(caller: Row<Account>): (r: Registration)
    ensures r == Registration(caller.id, caller.data.username, caller.data.email)
  {
    AsRegistration(caller)
  }

  /** GET /accounts/{account_id}: any account, shown as id and username only; a missing one is not found. */
  function AccountRoute(db: ChatStore, accountId: int): (r: Outcome<AccountSummary>)
    reads db
    ensures r.Ok? <==> accountId in Keys(db.accounts)
    ensures r.Ok? ==> r.value.id == accountId
    ensures r.Ok? ==> exists a :: Row(accountId, a) in db.accounts && r.value.username == a.username
    ensures r.Err? ==> r.error == ModelDNE("account", accountId)
  {
    var account := db.GetAccount(accountId);
    if account.Err? then Err(account.error)
    else Ok(AccountSummary(account.value.id, account.value.data.username))
  }

  // ---------------------------------------------------------------- routes with a caller-identity check

  /** POST /chats: a chat may only be created with the caller as its owner; that check precedes every store check. */
  method CreateChatRoute(db: ChatStore, caller: Row<Account>, name: string, ownerId: int) returns (r: Outcome<Row<Chat>>)
    requires db.Valid()
    modifies db
    ensures db.Valid()
    ensures ownerId != caller.id ==> r == Err(AccessDeniedError("chat")) && unchanged(db)
    ensures ownerId == caller.id ==> db.CreateChatDone(name, ownerId, r)
    ensures old(db.OwnersAreMembers()) ==> db.OwnersAreMembers()
    ensures old(db.UniqueValues()) ==> db.UniqueValues()
  {
    if ownerId != caller.id {
      return Err(AccessDeniedError("chat"));
    }
    r := db.CreateChat(name, ownerId, caller.id);
  }

  /** POST /chats/{chat_id}/messages: a message may only be posted as the caller, checked before the chat and the membership. */
  method CreateMessageRoute(db: ChatStore, caller: Row<Account>, chatId: int, text: string, accountId: int, createdAt: int)
    returns (r: Outcome<Row<Message>>)
    requires db.Valid()
    modifies db
    ensures db.Valid()
    ensures accountId != caller.id ==> r == Err(AccessDeniedError("message")) && unchanged(db)
    ensures accountId == caller.id ==> db.CreateMessageDone(chatId, text, accountId, createdAt, r)
    ensures old(db.OwnersAreMembers()) ==> db.OwnersAreMembers()
    ensures old(db.UniqueValues()) ==> db.UniqueValues()
  {
    if accountId != caller.id {
      return Err(AccessDeniedError("message"));
    }
    r := db.CreateMessage(chatId, text, accountId, createdAt);
  }

  // ---------------------------------------------------------------- add-membership status

  /** POST /chats/{chat_id}/accounts: 201 exactly when the membership is new, 200 when it already existed; the body echoes both ids. */
  method AddMemberRoute(db: ChatStore, chatId: int, accountId: int) returns (r: Outcome<MemberReply>)
    requires db.Valid()
    modifies db
    ensures db.Valid()
    ensures r.Err? <==> chatId !in old(Keys(db.chats)) || accountId !in old(Keys(db.accounts))
    ensures r.Err? ==> r.error == ModelDNE(if chatId !in old(Keys(db.chats)) then "chat" else "account",
                                           if chatId !in old(Keys(db.chats)) then chatId else accountId)
    ensures r.Ok? ==> r.value.chatId == chatId && r.value.accountId == accountId
    ensures r.Ok? ==> (r.value.status == 201 <==> Membership(accountId, chatId) !in old(db.memberships))
    ensures r.Ok? ==> r.value.status in {200, 201}
    ensures r.Ok? ==> db.memberships == old(db.memberships) + {Membership(accountId, chatId)}
    ensures r.Err? ==> unchanged(db)
    ensures db.accounts == old(db.accounts) && db.chats == old(db.chats) && db.messages == old(db.messages)
    ensures old(db.OwnersAreMembers()) ==> db.OwnersAreMembers()
    ensures old(db.UniqueValues()) ==> db.UniqueValues()
  {
    var added := db.AddAccountAsChatMember(chatId, accountId);
    if added.Err? {
      return Err(added.error);
    }
    var (membership, created) := added.value;
    var status := if created then 201 else 200;
    r := Ok(MemberReply(status, chatId, membership.accountId));
  }

  // ---------------------------------------------------------------- routes on the caller's own account

  /** PUT /accounts/me: updates the caller's own account and shows it without the hash. */
  method UpdateAccountRoute(db: ChatStore, caller: Row<Account>, username: Option<string>, email: Option<string>)
    returns (r: Outcome<Registration>, ghost q: Outcome<Row<Account>>)
    requires db.Valid()
    modifies db
    ensures db.Valid() && db.UpdateAccountDone(caller.id, username, email, q)
    ensures r.Ok? <==> q.Ok?
    ensures r.Ok? ==> r.value == AsRegistration(q.value) && r.value.id == caller.id
    ensures r.Err? ==> r.error == q.error
    ensures old(db.UniqueValues()) ==> db.UniqueValues()
    ensures old(db.OwnersAreMembers()) ==> db.OwnersAreMembers()
  {
    var updated := db.UpdateAccount(caller.id, username, email);
    q := updated;
    r := if updated.Ok? then Ok(AsRegistration(updated.value)) else Err(updated.error);
  }

  /** PUT /accounts/me/password: changes the caller's own password. */
  method UpdatePasswordRoute(db: ChatStore, caller: Row<Account>, oldPassword: string, newPassword: string)
    returns (r: Outcome<()>)
    requires db.Valid()
    modifies db
    ensures db.Valid() && db.UpdatePasswordDone(caller.id, oldPassword, newPassword, r)
    ensures old(db.UniqueValues()) ==> db.UniqueValues()
    ensures old(db.OwnersAreMembers()) ==> db.OwnersAreMembers()
  {
    r := db.UpdatePassword(caller.id, oldPassword, newPassword);
  }

  /** DELETE /accounts/me: deletes the caller's own account. */
  method DeleteAccountRoute(db: ChatStore, caller: Row<Account>) returns (r: Outcome<()>)
    requires db.Valid()
    modifies db
    ensures db.Valid() && db.DeleteAccountDone(caller.id, r)
    ensures old(db.OwnersAreMembers()) ==> db.OwnersAreMembers()
    ensures old(db.UniqueValues()) ==> db.UniqueValues()
  {
    r := db.DeleteAccount(caller.id);
  }

  /** POST /auth/registration: registers and shows the new account without the hash. */
  method RegisterRoute(db: ChatStore, username: string, email: string, password: string)
    returns (r: Outcome<Registration>, ghost q: Outcome<Row<Account>>)
    requires db.Valid()
    modifies db
    ensures db.Valid() && db.RegisterDone(username, email, password, q)
    ensures r.Ok? <==> q.Ok?
    ensures r.Ok? ==> r.value == AsRegistration(q.value)
    ensures r.Err? ==> r.error == q.error
    ensures old(db.UniqueValues()) ==> db.UniqueValues()
    ensures old(db.OwnersAreMembers()) ==> db.OwnersAreMembers()
  {
    var registered := db.RegisterAccount(username, email, password);
    q := registered;
    r := if registered.Ok? then Ok(AsRegistration(registered.value)) else Err(registered.error);
  }

  // ---------------------------------------------------------------- routes without a caller-identity check

  /** PUT /chats/{chat_id}: any request, authenticated or not, may update any chat. */
  method UpdateChatRoute(db: ChatStore, chatId: int, name: Option<string>, ownerId: Option<int>) returns (r: Outcome<Row<Chat>>)
    requires db.Valid()
    modifies db
    ensures db.Valid() && db.UpdateChatDone(chatId, name, ownerId, r)
    ensures old(db.OwnersAreMembers()) ==> db.OwnersAreMembers()
    ensures old(db.UniqueValues()) ==> db.UniqueValues()
  {
    r := db.UpdateChat(chatId, name, ownerId);
  }

  /** DELETE /chats/{chat_id}: no identity check. */
  method DeleteChatRoute(db: ChatStore, chatId: int) returns (r: Outcome<()>)
    requires db.Valid()
    modifies db
    ensures db.Valid() && db.DeleteChatDone(chatId, r)
    ensures old(db.OwnersAreMembers()) ==> db.OwnersAreMembers()
    ensures old(db.UniqueValues()) ==> db.UniqueValues()
  {
    r := db.DeleteChat(chatId);
  }

  /** PUT /chats/{chat_id}/messages/{message_id}: no identity check; anyone may edit any message. */
  method UpdateMessageRoute(db: ChatStore, chatId: int, messageId: int, text: string) returns (r: Outcome<Row<Message>>)
    requires db.Valid()
    modifies db
    ensures db.Valid() && db.UpdateMessageDone(chatId, messageId, text, r)
    ensures old(db.OwnersAreMembers()) ==> db.OwnersAreMembers()
    ensures old(db.UniqueValues()) ==> db.UniqueValues()
  {
    r := db.UpdateMessage(chatId, messageId, text);
  }

  /** DELETE /chats/{chat_id}/messages/{message_id}: no identity check. */
  method DeleteMessageRoute(db: ChatStore, chatId: int, messageId: int) returns (r: Outcome<()>)
    requires db.Valid()
    modifies db
    ensures db.Valid() && db.DeleteMessageDone(chatId, messageId, r)
    ensures old(db.OwnersAreMembers()) ==> db.OwnersAreMembers()
    ensures old(db.UniqueValues()) ==> db.UniqueValues()
  {
    r := db.DeleteMessage(chatId, messageId);
  }

  /** DELETE /chats/{chat_id}/accounts/{account_id}: no identity check; anyone may remove any non-owner member. */
  method DeleteMemberRoute(db: ChatStore, chatId: int, accountId: int) returns (r: Outcome<()>)
    requires db.Valid()
    modifies db
    ensures db.Valid() && db.DeleteMemberDone(chatId, accountId, r)
    ensures old(db.OwnersAreMembers()) ==> db.OwnersAreMembers()
    ensures old(db.UniqueValues()) ==> db.UniqueValues()
  {
    r := db.DeleteChatMembership(chatId, accountId);
  }
}
