/**
 * The query layer of the chat backend (backend/queries.py): one relational
 * store of accounts, chats, messages and chat memberships, with every
 * operation checking its preconditions in a fixed order and either raising
 * a typed error (committing nothing) or changing the store.
 */
module Queries {
  import opened Options
  import opened Tables
  import opened Errors

  datatype Account = Account(username: string, email: string, hash: string)
  datatype Chat = Chat(name: string, ownerId: int)
  /** `accountId` is nullable: a message outlives its author's membership. */
  datatype Message = Message(text: string, accountId: Option<int>, chatId: int, createdAt: int)
  /** A row of the membership table; the pair is its key. */
  datatype Membership = Membership(accountId: int, chatId: int)

  /** The password hash and its check, supplied from outside (bcrypt). */
  datatype Hasher = Hasher(hash: string -> string, verify: (string, string) -> bool)

  /** The one property the store relies on: a password verifies against its own hash. */
  ghost predicate Sound(h: Hasher) {
    forall p :: h.verify(p, h.hash(p))
  }

  function Username(a: Account): string { a.username }
  function Email(a: Account): string { a.email }
  function Name(c: Chat): string { c.name }
  function Owner(c: Chat): int { c.ownerId }

  /** What `account_in_chat_membership` accepts: the account exists and holds the membership. */
  ghost predicate IsMember(accounts: seq<Row<Account>>, memberships: set<Membership>, accountId: int, chatId: int) {
    accountId in Keys(accounts) && Membership(accountId, chatId) in memberships
  }

  /** `is_account_chat_owner`: the owner of a chat may not be removed from it. */
  function IsAccountChatOwner(chat: Row<Chat>, accountId: int): (r: Outcome<()>)
    ensures r.Err? <==> accountId == chat.data.ownerId
    ensures r.Err? ==> r.error == ChatOwnerRemovalError
  {
    if accountId == chat.data.ownerId then Err(ChatOwnerRemovalError) else Ok(())
  }

  /** One message after detaching: its author is cleared when it is the account's message in the chat. */
  function Detach(m: Row<Message>, chatId: int, accountId: int): (r: Row<Message>)
    ensures r.id == m.id && r.data.text == m.data.text && r.data.chatId == m.data.chatId
    ensures r.data.createdAt == m.data.createdAt
    ensures m.data.chatId == chatId && m.data.accountId == Some(accountId) ==> r.data.accountId == None
    ensures m.data.chatId != chatId || m.data.accountId != Some(accountId) ==> r == m
  {
    if m.data.chatId == chatId && m.data.accountId == Some(accountId)
    then Row(m.id, m.data.(accountId := None)) else m
  }

  /** The message table after the account's messages in the chat lose their author. */
  function Detached(t: seq<Row<Message>>, chatId: int, accountId: int): (r: seq<Row<Message>>)
    ensures |r| == |t|
    ensures forall i :: 0 <= i < |t| ==> r[i] == Detach(t[i], chatId, accountId)
    ensures forall i :: 0 <= i < |t| ==>
      && r[i].id == t[i].id
      && r[i].data.text == t[i].data.text
      && r[i].data.chatId == t[i].data.chatId
      && r[i].data.createdAt == t[i].data.createdAt
    ensures forall i :: 0 <= i < |t| ==>
      if t[i].data.chatId == chatId && t[i].data.accountId == Some(accountId)
      then r[i].data.accountId == None
      else r[i] == t[i]
  {
    seq(|t|, i requires 0 <= i < |t| => Detach(t[i], chatId, accountId))
  }

  /** Detaching deletes no message and leaves none in the chat attributed to the account. */
  lemma DetachedKeepsMessages(t: seq<Row<Message>>, chatId: int, accountId: int)
    ensures Keys(Detached(t, chatId, accountId)) == Keys(t)
    ensures forall m {:trigger m in Detached(t, chatId, accountId)} :: m in Detached(t, chatId, accountId) && m.data.chatId == chatId ==>
      m.data.accountId != Some(accountId)
    ensures forall m {:trigger m in t} :: m in t && (m.data.chatId != chatId || m.data.accountId != Some(accountId)) ==>
      m in Detached(t, chatId, accountId)
  {
    var r := Detached(t, chatId, accountId);
    forall k | k in Keys(t) ensures k in Keys(r) {
      var x :| x in t && x.id == k;
      var i :| 0 <= i < |t| && t[i] == x;
      assert r[i] in r;
    }
    forall k | k in Keys(r) ensures k in Keys(t) {
      var x :| x in r && x.id == k;
      var i :| 0 <= i < |r| && r[i] == x;
      assert t[i] in t;
    }
    forall m | m in t && (m.data.chatId != chatId || m.data.accountId != Some(accountId))
      ensures m in r
    {
      var i :| 0 <= i < |t| && t[i] == m;
      assert r[i] == m;
    }
  }

  /** Every chat's owner holds a membership of it. */
  ghost predicate OwnersHeld(chats: seq<Row<Chat>>, memberships: set<Membership>) {
    forall c {:trigger c in chats} :: c in chats ==> Membership(c.data.ownerId, c.id) in memberships
  }

  /** Usernames, emails and chat names are each unique. */
  ghost predicate NoDuplicates(accounts: seq<Row<Account>>, chats: seq<Row<Chat>>) {
    Unique(accounts, Username) && Unique(accounts, Email) && Unique(chats, Name)
  }

  /** Every membership and message names a chat id below `bound`. */
  ghost predicate ChatIdsBelow(memberships: set<Membership>, messages: seq<Row<Message>>, bound: int) {
    (forall m {:trigger m in memberships} :: m in memberships ==> m.chatId < bound)
    && (forall m {:trigger m in messages} :: m in messages ==> m.data.chatId < bound)
  }

  /** Adding a chat with a fresh id and a free name, together with its owner's membership, keeps the invariants; the owner is its only member. */
  lemma ChatAdded(accounts: seq<Row<Account>>, chats: seq<Row<Chat>>, memberships: set<Membership>,
                  messages: seq<Row<Message>>, chat: Row<Chat>, bound: int)
    requires Increasing(chats) && Below(chats, bound) && ChatIdsBelow(memberships, messages, bound)
    requires chat.id == bound && !Taken(chats, Name, chat.data.name)
    ensures Increasing(chats + [chat]) && Below(chats + [chat], bound + 1)
    ensures ChatIdsBelow(memberships + {Membership(chat.data.ownerId, chat.id)}, messages, bound + 1)
    ensures OwnersHeld(chats, memberships) ==>
      OwnersHeld(chats + [chat], memberships + {Membership(chat.data.ownerId, chat.id)})
    ensures NoDuplicates(accounts, chats) ==> NoDuplicates(accounts, chats + [chat])
    ensures forall m {:trigger m in memberships} :: m in memberships + {Membership(chat.data.ownerId, chat.id)} && m.chatId == chat.id ==>
      m.accountId == chat.data.ownerId
  {
    AppendKeyed(chats, chat, bound);
    if NoDuplicates(accounts, chats) {
      AppendUnique(chats, chat, Name);
    }
  }

  /** Renaming a chat to a free name and handing it to a member keeps the invariants. */
  lemma ChatChanged(accounts: seq<Row<Account>>, chats: seq<Row<Chat>>, memberships: set<Membership>,
                    id: int, before: Chat, after: Chat, bound: int)
    requires Increasing(chats) && Below(chats, bound) && Row(id, before) in chats
    requires after.name == before.name || !Taken(chats, Name, after.name)
    requires after.ownerId == before.ownerId || Membership(after.ownerId, id) in memberships
    ensures Increasing(Put(chats, id, after)) && Below(Put(chats, id, after), bound)
    ensures Keys(Put(chats, id, after)) == Keys(chats)
    ensures OwnersHeld(chats, memberships) ==> OwnersHeld(Put(chats, id, after), memberships)
    ensures NoDuplicates(accounts, chats) ==> NoDuplicates(accounts, Put(chats, id, after))
  {
    SameKeysKeyed(chats, Put(chats, id, after), bound);
    if NoDuplicates(accounts, chats) {
      PutUnique(chats, id, after, Name);
    }
  }

  /** Dropping chat rows keeps the invariants. */
  lemma ChatsDropped(accounts: seq<Row<Account>>, chats: seq<Row<Chat>>, chats': seq<Row<Chat>>,
                     memberships: set<Membership>, bound: int)
    requires Below(chats, bound) && forall c :: c in chats' ==> c in chats
    ensures Below(chats', bound)
    ensures OwnersHeld(chats, memberships) ==> OwnersHeld(chats', memberships)
    ensures NoDuplicates(accounts, chats) ==> NoDuplicates(accounts, chats')
  {
  }

  /** Adding a membership to an existing chat keeps the invariants. */
  lemma MembershipAdded(chats: seq<Row<Chat>>, memberships: set<Membership>, messages: seq<Row<Message>>,
                        m: Membership, bound: int)
    requires ChatIdsBelow(memberships, messages, bound) && m.chatId < bound
    ensures ChatIdsBelow(memberships + {m}, messages, bound)
    ensures OwnersHeld(chats, memberships) ==> OwnersHeld(chats, memberships + {m})
  {
  }

  /** Removing a membership that is not the owner's keeps every owner a member. */
  lemma MembershipRemoved(chats: seq<Row<Chat>>, memberships: set<Membership>, chatId: int, chat: Chat, accountId: int)
    requires Increasing(chats) && Row(chatId, chat) in chats && accountId != chat.ownerId
    ensures OwnersHeld(chats, memberships) ==> OwnersHeld(chats, memberships - {Membership(accountId, chatId)})
  {
    forall c | c in chats && c.id == chatId ensures c.data == chat {
      GetExact(chats, chatId, c.data);
      GetExact(chats, chatId, chat);
    }
  }

  /** Removing a membership and detaching messages keeps every chat id handed out. */
  lemma MemberDetached(memberships: set<Membership>, messages: seq<Row<Message>>, chatId: int, accountId: int, bound: int)
    requires ChatIdsBelow(memberships, messages, bound)
    ensures ChatIdsBelow(memberships - {Membership(accountId, chatId)}, Detached(messages, chatId, accountId), bound)
  {
    var r := Detached(messages, chatId, accountId);
    forall m | m in r ensures m.data.chatId < bound {
      var i :| 0 <= i < |r| && r[i] == m;
      assert messages[i] in messages;
    }
  }

  /** Adding an account whose username and email are free keeps them unique. */
  lemma AccountAdded(accounts: seq<Row<Account>>, chats: seq<Row<Chat>>, account: Row<Account>, bound: int)
    requires Increasing(accounts) && Below(accounts, bound) && account.id == bound
    requires !Taken(accounts, Username, account.data.username) && !Taken(accounts, Email, account.data.email)
    ensures Increasing(accounts + [account]) && Below(accounts + [account], bound + 1)
    ensures NoDuplicates(accounts, chats) ==> NoDuplicates(accounts + [account], chats)
  {
    AppendKeyed(accounts, account, bound);
    if NoDuplicates(accounts, chats) {
      AppendUnique(accounts, account, Username);
      AppendUnique(accounts, account, Email);
    }
  }

  /** Changing an account to values no other account holds keeps them unique. */
  lemma AccountChanged(accounts: seq<Row<Account>>, chats: seq<Row<Chat>>, id: int, before: Account, after: Account, bound: int)
    requires Increasing(accounts) && Below(accounts, bound) && Row(id, before) in accounts
    requires after.username == before.username || !TakenByOther(accounts, Username, after.username, id)
    requires after.email == before.email || !TakenByOther(accounts, Email, after.email, id)
    ensures Increasing(Put(accounts, id, after)) && Below(Put(accounts, id, after), bound)
    ensures Keys(Put(accounts, id, after)) == Keys(accounts)
    ensures NoDuplicates(accounts, chats) ==> NoDuplicates(Put(accounts, id, after), chats)
  {
    SameKeysKeyed(accounts, Put(accounts, id, after), bound);
    if NoDuplicates(accounts, chats) {
      PutUnique(accounts, id, after, Username);
      PutUnique(accounts, id, after, Email);
    }
  }

  class ChatStore {
    var accounts: seq<Row<Account>>
    var chats: seq<Row<Chat>>
    var messages: seq<Row<Message>>
    var memberships: set<Membership>
    var nextAccountId: int
    var nextChatId: int
    var nextMessageId: int
    const hasher: Hasher

    /** Primary keys are unique and below the next key; every membership and message names a chat id already handed out. */
    ghost predicate Valid()
      reads this
    {
      && Increasing(accounts) && Below(accounts, nextAccountId)
      && Increasing(chats) && Below(chats, nextChatId)
      && Increasing(messages) && Below(messages, nextMessageId)
      && ChatIdsBelow(memberships, messages, nextChatId)
      && Sound(hasher)
    }

    /** Every chat's owner is a member of it. Kept by every operation, not true of every state. */
    ghost predicate OwnersAreMembers()
      reads this
    {
      OwnersHeld(chats, memberships)
    }

    /** Usernames, emails and chat names are each unique. */
    ghost predicate UniqueValues()
      reads this
    {
      NoDuplicates(accounts, chats)
    }

    /** An empty store. */
    constructor (h: Hasher)
      requires Sound(h)
      ensures Valid() && OwnersAreMembers() && UniqueValues()
      ensures accounts == [] && chats == [] && messages == [] && memberships == {}
      ensures hasher == h
    {
      accounts, chats, messages, memberships := [], [], [], {};
      nextAccountId, nextChatId, nextMessageId := 1, 1, 1;
      hasher := h;
    }

    // ---------------------------------------------------------------- lookups and guards

    /** `chat_exists`. */
    function ChatExists(chatId: int): (r: Outcome<Row<Chat>>)
      reads this
      ensures r.Ok? <==> chatId in Keys(chats)
      ensures r.Ok? ==> r.value in chats && r.value.id == chatId
      ensures r.Err? ==> r.error == ModelDNE("chat", chatId)
    {
      match Get(chats, chatId)
      case Some(c) => Ok(Row(chatId, c))
      case None => Err(ModelDNE("chat", chatId))
    }

    /** `account_exists`. */
    function AccountExists(accountId: int): (r: Outcome<Row<Account>>)
      reads this
      ensures r.Ok? <==> accountId in Keys(accounts)
      ensures r.Ok? ==> r.value in accounts && r.value.id == accountId
      ensures r.Err? ==> r.error == ModelDNE("account", accountId)
    {
      match Get(accounts, accountId)
      case Some(a) => Ok(Row(accountId, a))
      case None => Err(ModelDNE("account", accountId))
    }

    /** `account_in_chat_membership`: a missing account and a missing membership raise the same error. */
    function AccountInChatMembership(chatId: int, accountId: int): (r: Outcome<Membership>)
      reads this
      ensures r.Ok? <==> IsMember(accounts, memberships, accountId, chatId)
      ensures r.Ok? ==> r.value == Membership(accountId, chatId)
      ensures r.Err? ==> r.error == ChatMembershipError(accountId, chatId)
    {
      var account := Get(accounts, accountId);
      var membership := Membership(accountId, chatId);
      if membership !in memberships || account.None? then Err(ChatMembershipError(accountId, chatId))
      else Ok(membership)
    }

    /** `check_duplicate_chat_name`: a name held by any chat, the chat being renamed included, is a duplicate. */
    function CheckDuplicateChatName(name: string): (r: Outcome<()>)
      reads this
      ensures r.Err? <==> Taken(chats, Name, name)
      ensures r.Err? ==> r.error == DuplicateModel("chat", "name", name)
    {
      if FirstWith(chats, Name, name).Some? then Err(DuplicateModel("chat", "name", name)) else Ok(())
    }

    /** `owner_exists_in_membership`: the membership check, made twice as the source does. */
    function OwnerExistsInMembership(chatId: int, ownerId: int): (r: Outcome<()>)
      reads this
      ensures r.Err? <==> !IsMember(accounts, memberships, ownerId, chatId)
      ensures r.Err? ==> r.error == ChatMembershipError(ownerId, chatId)
    {
      var first := AccountInChatMembership(chatId, ownerId);
      var held := Membership(ownerId, chatId) in memberships;
      if first.Err? || !held then Err(ChatMembershipError(ownerId, chatId)) else Ok(())
    }

    /** `verify_message`: a message of another chat is reported exactly like a missing one. */
    function VerifyMessage(chatId: int, messageId: int): (r: Outcome<Row<Message>>)
      reads this
      requires Valid()
      ensures r.Ok? <==> exists m {:trigger Row(messageId, m) in messages} :: Row(messageId, m) in messages && m.chatId == chatId
      ensures r.Ok? ==> r.value in messages && r.value.id == messageId && r.value.data.chatId == chatId
      ensures r.Err? ==> r.error == ModelDNE("message", messageId)
    {
      var found := Get(messages, messageId);
      if found.None? || found.value.chatId != chatId then
        assert forall m :: Row(messageId, m) in messages ==> found == Some(m) by {
          forall m | Row(messageId, m) in messages ensures found == Some(m) {
            GetExact(messages, messageId, m);
          }
        }
        Err(ModelDNE("message", messageId))
      else Ok(Row(messageId, found.value))
    }

    /** `get_accounts`: every account once, in ascending id order. */
    function GetAccounts(): (r: seq<Row<Account>>)
      reads this
      requires Valid()
      ensures Increasing(r) && forall x :: x in r <==> x in accounts
    {
      accounts
    }

    /** `get_account`. */
    function GetAccount(accountId: int): (r: Outcome<Row<Account>>)
      reads this
      ensures r.Ok? <==> exists a :: Row(accountId, a) in accounts
      ensures r.Ok? ==> r.value in accounts && r.value.id == accountId
      ensures r.Err? ==> r.error == ModelDNE("account", accountId)
    {
      AccountExists(accountId)
    }

    /** `get_account_by_username`: the first account with that username, if any. */
    function GetAccountByUsername(username: string): (r: Option<Row<Account>>)
      reads this
      ensures r.Some? ==> r.value in accounts && r.value.data.username == username
      ensures r.None? <==> forall a {:trigger a in accounts} :: a in accounts ==> a.data.username != username
    {
      FirstWith(accounts, Username, username)
    }

    /** `get_chats`: every chat once, in ascending id order. */
    function GetChats(): (r: seq<Row<Chat>>)
      reads this
      requires Valid()
      ensures Increasing(r) && forall x :: x in r <==> x in chats
    {
      chats
    }

    /** `get_chat`. */
    function GetChat(chatId: int): (r: Outcome<Row<Chat>>)
      reads this
      ensures r.Ok? <==> exists c :: Row(chatId, c) in chats
      ensures r.Ok? ==> r.value in chats && r.value.id == chatId
      ensures r.Err? ==> r.error == ModelDNE("chat", chatId)
    {
      ChatExists(chatId)
    }

    /** `get_messages`: the chat's messages in ascending id order; a missing chat is not found. */
    function GetMessages(chatId: int): (r: Outcome<seq<Row<Message>>>)
      reads this
      requires Valid()
      ensures r.Err? <==> chatId !in Keys(chats)
      ensures r.Err? ==> r.error == ModelDNE("chat", chatId)
      ensures r.Ok? ==> Increasing(r.value)
      ensures r.Ok? ==> forall m {:trigger m in r.value} {:trigger m in messages} :: m in r.value <==> m in messages && m.data.chatId == chatId
    {
      var chat := ChatExists(chatId);
      if chat.Err? then Err(chat.error)
      else Ok(Where(messages, (m: Row<Message>) => m.data.chatId == chatId))
    }

    /** `get_chat_id_accounts`: the chat's members in ascending account id order. */
    function GetChatIdAccounts(chatId: int): (r: Outcome<seq<Row<Account>>>)
      reads this
      requires Valid()
      ensures r.Err? <==> chatId !in Keys(chats)
      ensures r.Err? ==> r.error == ModelDNE("chat", chatId)
      ensures r.Ok? ==> Increasing(r.value)
      ensures r.Ok? ==> forall a {:trigger a in r.value} {:trigger a in accounts} :: a in r.value <==> a in accounts && Membership(a.id, chatId) in memberships
    {
      var chat := ChatExists(chatId);
      if chat.Err? then Err(chat.error)
      else
        var ms := memberships;
        Ok(Where(accounts, (a: Row<Account>) => Membership(a.id, chatId) in ms))
    }

    /** `get_verified_user`: an unknown username and a wrong password fail alike. */
    function GetVerifiedUser(username: string, password: string): (r: Outcome<Row<Account>>)
      reads this
      requires Valid()
      ensures r.Ok? ==> r.value in accounts && r.value.data.username == username
      ensures r.Ok? ==> hasher.verify(password, r.value.data.hash)
      ensures r.Err? ==> r.error == InvalidCredentials
      ensures Unique(accounts, Username) ==>
        (r.Ok? <==> exists a {:trigger a in accounts} :: a in accounts && a.data.username == username && hasher.verify(password, a.data.hash))
    {
      match FirstWith(accounts, Username, username)
      case Some(a) =>
        if hasher.verify(password, a.data.hash) then Ok(a)
        else
          assert Unique(accounts, Username) ==> forall b :: b in accounts && b.data.username == username ==> b == a by {
            if Unique(accounts, Username) {
              forall b | b in accounts && b.data.username == username ensures b == a {
                GetExact(accounts, a.id, a.data);
                GetExact(accounts, a.id, b.data);
              }
            }
          }
          Err(InvalidCredentials)
      case None => Err(InvalidCredentials)
    }

    // ---------------------------------------------------------------- outcomes of the operations

    twostate predicate CreateChatDone(name: string, ownerId: int, new r: Outcome<Row<Chat>>)
      reads this
    {
      if ownerId !in Keys(old(accounts)) then
        r == Err(ModelDNE("account", ownerId)) && unchanged(this)
      else if Taken(old(chats), Name, name) then
        r == Err(DuplicateModel("chat", "name", name)) && unchanged(this)
      else
        && r.Ok?
        && r.value.data == Chat(name, ownerId)
        && (forall c {:trigger c in old(chats)} :: c in old(chats) ==> c.id < r.value.id)
        && chats == old(chats) + [r.value]
        && memberships == old(memberships) + {Membership(ownerId, r.value.id)}
        && (forall m {:trigger m in memberships} :: m in memberships && m.chatId == r.value.id ==> m.accountId == ownerId)
        && accounts == old(accounts) && messages == old(messages)
    }

    twostate predicate UpdateChatDone(chatId: int, name: Option<string>, ownerId: Option<int>, new r: Outcome<Row<Chat>>)
      reads this
    {
      if chatId !in Keys(old(chats)) then
        r == Err(ModelDNE("chat", chatId)) && unchanged(this)
      else if name.Some? && Taken(old(chats), Name, name.value) then
        r == Err(DuplicateModel("chat", "name", name.value)) && unchanged(this)
      else if ownerId.Some? && !IsMember(old(accounts), old(memberships), ownerId.value, chatId) then
        r == Err(ChatMembershipError(ownerId.value, chatId)) && unchanged(this)
      else
        var before := Get(old(chats), chatId).value;
        var after := Chat(if name.Some? then name.value else before.name,
                          if ownerId.Some? then ownerId.value else before.ownerId);
        && r == Ok(Row(chatId, after))
        && chats == Put(old(chats), chatId, after)
        && accounts == old(accounts) && messages == old(messages) && memberships == old(memberships)
    }

    twostate predicate DeleteChatDone(chatId: int, new r: Outcome<()>)
      reads this
    {
      if chatId !in Keys(old(chats)) then
        r == Err(ModelDNE("chat", chatId)) && unchanged(this)
      else
        && r == Ok(())
        && chats == Remove(old(chats), chatId)
        && accounts == old(accounts) && messages == old(messages) && memberships == old(memberships)
    }

    twostate predicate CreateMessageDone(chatId: int, text: string, accountId: int, createdAt: int, new r: Outcome<Row<Message>>)
      reads this
    {
      if chatId !in Keys(old(chats)) then
        r == Err(ModelDNE("chat", chatId)) && unchanged(this)
      else if !IsMember(old(accounts), old(memberships), accountId, chatId) then
        r == Err(ChatMembershipError(accountId, chatId)) && unchanged(this)
      else
        && r.Ok?
        && r.value.data == Message(text, Some(accountId), chatId, createdAt)
        && (forall m {:trigger m in old(messages)} :: m in old(messages) ==> m.id < r.value.id)
        && messages == old(messages) + [r.value]
        && accounts == old(accounts) && chats == old(chats) && memberships == old(memberships)
    }

    twostate predicate UpdateMessageDone(chatId: int, messageId: int, text: string, new r: Outcome<Row<Message>>)
      reads this
    {
      var found := Get(old(messages), messageId);
      if chatId !in Keys(old(chats)) then
        r == Err(ModelDNE("chat", chatId)) && unchanged(this)
      else if found.None? || found.value.chatId != chatId then
        r == Err(ModelDNE("message", messageId)) && unchanged(this)
      else
        var after := found.value.(text := text);
        && r == Ok(Row(messageId, after))
        && messages == Put(old(messages), messageId, after)
        && accounts == old(accounts) && chats == old(chats) && memberships == old(memberships)
    }

    twostate predicate DeleteMessageDone(chatId: int, messageId: int, new r: Outcome<()>)
      reads this
    {
      var found := Get(old(messages), messageId);
      if chatId !in Keys(old(chats)) then
        r == Err(ModelDNE("chat", chatId)) && unchanged(this)
      else if found.None? || found.value.chatId != chatId then
        r == Err(ModelDNE("message", messageId)) && unchanged(this)
      else
        && r == Ok(())
        && messages == Remove(old(messages), messageId)
        && accounts == old(accounts) && chats == old(chats) && memberships == old(memberships)
    }

    /** The flag says whether the membership was newly created. */
    twostate predicate AddMemberDone(chatId: int, accountId: int, new r: Outcome<(Membership, bool)>)
      reads this
    {
      if chatId !in Keys(old(chats)) then
        r == Err(ModelDNE("chat", chatId)) && unchanged(this)
      else if accountId !in Keys(old(accounts)) then
        r == Err(ModelDNE("account", accountId)) && unchanged(this)
      else if Membership(accountId, chatId) in old(memberships) then
        r == Ok((Membership(accountId, chatId), false)) && unchanged(this)
      else
        && r == Ok((Membership(accountId, chatId), true))
        && memberships == old(memberships) + {Membership(accountId, chatId)}
        && accounts == old(accounts) && chats == old(chats) && messages == old(messages)
    }

    twostate predicate DeleteMemberDone(chatId: int, accountId: int, new r: Outcome<()>)
      reads this
    {
      if chatId !in Keys(old(chats)) then
        r == Err(ModelDNE("chat", chatId)) && unchanged(this)
      else if !IsMember(old(accounts), old(memberships), accountId, chatId) then
        r == Err(ChatMembershipError(accountId, chatId)) && unchanged(this)
      else if accountId == Get(old(chats), chatId).value.ownerId then
        r == Err(ChatOwnerRemovalError) && unchanged(this)
      else
        && r == Ok(())
        && memberships == old(memberships) - {Membership(accountId, chatId)}
        && messages == Detached(old(messages), chatId, accountId)
        && accounts == old(accounts) && chats == old(chats)
    }

    twostate predicate RegisterDone(username: string, email: string, password: string, new r: Outcome<Row<Account>>)
      reads this
    {
      if Taken(old(accounts), Username, username) then
        r == Err(DuplicateModel("account", "username", username)) && unchanged(this)
      else if Taken(old(accounts), Email, email) then
        r == Err(DuplicateModel("account", "email", email)) && unchanged(this)
      else
        && r.Ok?
        && r.value.data == Account(username, email, hasher.hash(password))
        && (forall a {:trigger a in old(accounts)} :: a in old(accounts) ==> a.id < r.value.id)
        && accounts == old(accounts) + [r.value]
        && chats == old(chats) && messages == old(messages) && memberships == old(memberships)
    }

    /** A value equal to the current one is skipped; a value another account holds is a duplicate. */
    twostate predicate UpdateAccountDone(id: int, username: Option<string>, email: Option<string>, new r: Outcome<Row<Account>>)
      reads this
    {
      if id !in Keys(old(accounts)) then
        r == Err(ModelDNE("account", id)) && unchanged(this)
      else
        var before := Get(old(accounts), id).value;
        var newName := username.Some? && username.value != before.username;
        var newEmail := email.Some? && email.value != before.email;
        if newName && TakenByOther(old(accounts), Username, username.value, id) then
          r == Err(DuplicateModel("account", "username", username.value)) && unchanged(this)
        else if newEmail && TakenByOther(old(accounts), Email, email.value, id) then
          r == Err(DuplicateModel("account", "email", email.value)) && unchanged(this)
        else
          var after := Account(if newName then username.value else before.username,
                               if newEmail then email.value else before.email,
                               before.hash);
          && r == Ok(Row(id, after))
          && accounts == Put(old(accounts), id, after)
          && chats == old(chats) && messages == old(messages) && memberships == old(memberships)
    }

    twostate predicate UpdatePasswordDone(id: int, oldPassword: string, newPassword: string, new r: Outcome<()>)
      reads this
    {
      if id !in Keys(old(accounts)) then
        r == Err(ModelDNE("account", id)) && unchanged(this)
      else
        var before := Get(old(accounts), id).value;
        if !hasher.verify(oldPassword, before.hash) then
          r == Err(InvalidCredentials) && unchanged(this)
        else
          && r == Ok(())
          && accounts == Put(old(accounts), id, before.(hash := hasher.hash(newPassword)))
          && chats == old(chats) && messages == old(messages) && memberships == old(memberships)
    }

    twostate predicate DeleteAccountDone(id: int, new r: Outcome<()>)
      reads this
    {
      if id !in Keys(old(accounts)) then
        r == Err(ModelDNE("account", id)) && unchanged(this)
      else if Taken(old(chats), Owner, id) then
        r == Err(ChatOwnerRemovalError) && unchanged(this)
      else
        && r == Ok(())
        && accounts == Remove(old(accounts), id)
        && chats == old(chats) && messages == old(messages) && memberships == old(memberships)
    }

    // ---------------------------------------------------------------- operations

    /** `create_chat`: the owner must exist, then the name must be free; the owner becomes the only member. */
    method CreateChat(name: string, ownerId: int, currentAccountId: int) returns (r: Outcome<Row<Chat>>)
      requires Valid()
      modifies this
      ensures Valid() && CreateChatDone(name, ownerId, r)
      ensures old(OwnersAreMembers()) ==> OwnersAreMembers()
      ensures old(UniqueValues()) ==> UniqueValues()
    {
      var owner := AccountExists(ownerId);
      if owner.Err? { return Err(owner.error); }
      var duplicate := CheckDuplicateChatName(name);
      if duplicate.Err? { return Err(duplicate.error); }
      var chat := Row(nextChatId, Chat(name, ownerId));
      ChatAdded(accounts, chats, memberships, messages, chat, nextChatId);
      chats := chats + [chat];
      nextChatId := nextChatId + 1;
      memberships := memberships + {Membership(ownerId, chat.id)};
      r := Ok(chat);
    }

    /** `update_chat`: the chat must exist, a given name must be free, a given owner must be a member. */
    method UpdateChat(chatId: int, name: Option<string>, ownerId: Option<int>) returns (r: Outcome<Row<Chat>>)
      requires Valid()
      modifies this
      ensures Valid() && UpdateChatDone(chatId, name, ownerId, r)
      ensures old(OwnersAreMembers()) ==> OwnersAreMembers()
      ensures old(UniqueValues()) ==> UniqueValues()
    {
      var found := ChatExists(chatId);
      if found.Err? { return Err(found.error); }
      var before := found.value.data;
      GetExact(chats, chatId, before);
      if name.Some? {
        var duplicate := CheckDuplicateChatName(name.value);
        if duplicate.Err? { return Err(duplicate.error); }
      }
      if ownerId.Some? {
        var member := OwnerExistsInMembership(chatId, ownerId.value);
        if member.Err? { return Err(member.error); }
      }
      var after := Chat(if name.Some? then name.value else before.name,
                        if ownerId.Some? then ownerId.value else before.ownerId);
      ChatChanged(accounts, chats, memberships, chatId, before, after, nextChatId);
      chats := Put(chats, chatId, after);
      r := Ok(Row(chatId, after));
    }

    /** `delete_chat`: only the chat row goes; memberships and messages are not touched here. */
    method DeleteChat(chatId: int) returns (r: Outcome<()>)
      requires Valid()
      modifies this
      ensures Valid() && DeleteChatDone(chatId, r)
      ensures old(OwnersAreMembers()) ==> OwnersAreMembers()
      ensures old(UniqueValues()) ==> UniqueValues()
    {
      var found := ChatExists(chatId);
      if found.Err? { return Err(found.error); }
      ChatsDropped(accounts, chats, Remove(chats, chatId), memberships, nextChatId);
      chats := Remove(chats, chatId);
      r := Ok(());
    }

    /** `create_message`: the chat must exist, then the author must be a member of it. */
    method CreateMessage(chatId: int, text: string, accountId: int, createdAt: int) returns (r: Outcome<Row<Message>>)
      requires Valid()
      modifies this
      ensures Valid() && CreateMessageDone(chatId, text, accountId, createdAt, r)
      ensures old(OwnersAreMembers()) ==> OwnersAreMembers()
      ensures old(UniqueValues()) ==> UniqueValues()
    {
      var found := ChatExists(chatId);
      if found.Err? { return Err(found.error); }
      var member := AccountInChatMembership(chatId, accountId);
      if member.Err? { return Err(member.error); }
      var message := Row(nextMessageId, Message(text, Some(accountId), chatId, createdAt));
      AppendKeyed(messages, message, nextMessageId);
      messages := messages + [message];
      nextMessageId := nextMessageId + 1;
      r := Ok(message);
    }

    /** `update_message`: only the text of the one message changes. */
    method UpdateMessage(chatId: int, messageId: int, text: string) returns (r: Outcome<Row<Message>>)
      requires Valid()
      modifies this
      ensures Valid() && UpdateMessageDone(chatId, messageId, text, r)
      ensures old(OwnersAreMembers()) ==> OwnersAreMembers()
      ensures old(UniqueValues()) ==> UniqueValues()
    {
      var found := ChatExists(chatId);
      if found.Err? { return Err(found.error); }
      var message := VerifyMessage(chatId, messageId);
      if message.Err? { return Err(message.error); }
      GetExact(messages, messageId, message.value.data);
      var after := message.value.data.(text := text);
      SameKeysKeyed(messages, Put(messages, messageId, after), nextMessageId);
      messages := Put(messages, messageId, after);
      r := Ok(Row(messageId, after));
    }

    /** `delete_message`: only the one message goes. */
    method DeleteMessage(chatId: int, messageId: int) returns (r: Outcome<()>)
      requires Valid()
      modifies this
      ensures Valid() && DeleteMessageDone(chatId, messageId, r)
      ensures old(OwnersAreMembers()) ==> OwnersAreMembers()
      ensures old(UniqueValues()) ==> UniqueValues()
    {
      var found := ChatExists(chatId);
      if found.Err? { return Err(found.error); }
      var message := VerifyMessage(chatId, messageId);
      if message.Err? { return Err(message.error); }
      GetExact(messages, messageId, message.value.data);
      messages := Remove(messages, messageId);
      r := Ok(());
    }

    /** `add_account_as_chat_member`: idempotent; the flag is true only when the membership is new. */
    method AddAccountAsChatMember(chatId: int, accountId: int) returns (r: Outcome<(Membership, bool)>)
      requires Valid()
      modifies this
      ensures Valid() && AddMemberDone(chatId, accountId, r)
      ensures r.Ok? ==> Membership(accountId, chatId) in memberships
      ensures old(OwnersAreMembers()) ==> OwnersAreMembers()
      ensures old(UniqueValues()) ==> UniqueValues()
    {
      var found := ChatExists(chatId);
      if found.Err? { return Err(found.error); }
      var account := AccountExists(accountId);
      if account.Err? { return Err(account.error); }
      var current := AccountInChatMembership(chatId, accountId);
      if current.Ok? {
        return Ok((current.value, false));
      }
      var membership := Membership(accountId, chatId);
      MembershipAdded(chats, memberships, messages, membership, nextChatId);
      memberships := memberships + {membership};
      r := Ok((membership, true));
    }

    /** `delete_all_messages`: every message of the account in the chat loses its author; none is deleted. */
    method DeleteAllMessages(chatId: int, accountId: int)
      modifies this
      ensures messages == Detached(old(messages), chatId, accountId)
      ensures accounts == old(accounts) && chats == old(chats) && memberships == old(memberships)
      ensures nextAccountId == old(nextAccountId) && nextChatId == old(nextChatId)
      ensures nextMessageId == old(nextMessageId)
      ensures old(OwnersAreMembers()) ==> OwnersAreMembers()
      ensures old(UniqueValues()) ==> UniqueValues()
    {
      var detached := messages;
      var i := 0;
      while i < |detached|
        invariant 0 <= i <= |detached| == |messages|
        invariant forall k :: 0 <= k < i ==> detached[k] == Detach(messages[k], chatId, accountId)
        invariant forall k :: i <= k < |detached| ==> detached[k] == messages[k]
      {
        var m := detached[i];
        if m.data.chatId == chatId && m.data.accountId == Some(accountId) {
          detached := detached[i := Row(m.id, m.data.(accountId := None))];
        }
        i := i + 1;
      }
      assert detached == Detached(messages, chatId, accountId);
      messages := detached;
    }

    /** `delete_chat_membership`: the chat must exist, the account must be a member and not the owner. */
    method DeleteChatMembership(chatId: int, accountId: int) returns (r: Outcome<()>)
      requires Valid()
      modifies this
      ensures Valid() && DeleteMemberDone(chatId, accountId, r)
      ensures old(OwnersAreMembers()) ==> OwnersAreMembers()
      ensures old(UniqueValues()) ==> UniqueValues()
    {
      var found := ChatExists(chatId);
      if found.Err? { return Err(found.error); }
      GetExact(chats, chatId, found.value.data);
      var membership := AccountInChatMembership(chatId, accountId);
      if membership.Err? { return Err(membership.error); }
      var owner := IsAccountChatOwner(found.value, accountId);
      if owner.Err? { return Err(owner.error); }
      SameKeysKeyed(messages, Detached(messages, chatId, accountId), nextMessageId);
      MemberDetached(memberships, messages, chatId, accountId, nextChatId);
      DeleteAllMessages(chatId, accountId);
      memberships := memberships - {membership.value};
      forall c | c in chats ensures c.id == chatId ==> c.data == found.value.data {
        if c.id == chatId { GetExact(chats, chatId, c.data); }
      }
      r := Ok(());
    }

    /** `register_account`: the username must be free, then the email; the stored hash verifies the password. */
    method RegisterAccount(username: string, email: string, password: string) returns (r: Outcome<Row<Account>>)
      requires Valid()
      modifies this
      ensures Valid() && RegisterDone(username, email, password, r)
      ensures r.Ok? ==> hasher.verify(password, r.value.data.hash)
      ensures old(OwnersAreMembers()) ==> OwnersAreMembers()
      ensures old(UniqueValues()) ==> UniqueValues()
    {
      if FirstWith(accounts, Username, username).Some? {
        return Err(DuplicateModel("account", "username", username));
      }
      if FirstWith(accounts, Email, email).Some? {
        return Err(DuplicateModel("account", "email", email));
      }
      var account := Row(nextAccountId, Account(username, email, hasher.hash(password)));
      AccountAdded(accounts, chats, account, nextAccountId);
      accounts := accounts + [account];
      nextAccountId := nextAccountId + 1;
      r := Ok(account);
    }

    /** `update_account`: the username is checked and applied before the email. */
    method UpdateAccount(id: int, username: Option<string>, email: Option<string>) returns (r: Outcome<Row<Account>>)
      requires Valid()
      modifies this
      ensures Valid() && UpdateAccountDone(id, username, email, r)
      ensures old(OwnersAreMembers()) ==> OwnersAreMembers()
      ensures old(UniqueValues()) ==> UniqueValues()
    {
      var found := AccountExists(id);
      if found.Err? { return Err(found.error); }
      var before := found.value.data;
      GetExact(accounts, id, before);
      var newName := username.Some? && username.value != before.username;
      var newEmail := email.Some? && email.value != before.email;
      if newName {
        var existing := FirstWith(accounts, Username, username.value);
        if existing.Some? && existing.value.id != id {
          return Err(DuplicateModel("account", "username", username.value));
        }
        NotTakenByOther(accounts, Username, username.value, id, before);
      }
      if newEmail {
        var existing := FirstWith(accounts, Email, email.value);
        if existing.Some? && existing.value.id != id {
          return Err(DuplicateModel("account", "email", email.value));
        }
        NotTakenByOther(accounts, Email, email.value, id, before);
      }
      var after := Account(if newName then username.value else before.username,
                           if newEmail then email.value else before.email,
                           before.hash);
      AccountChanged(accounts, chats, id, before, after, nextAccountId);
      accounts := Put(accounts, id, after);
      r := Ok(Row(id, after));
    }

    /** `update_password`: the old password must verify against the stored hash. */
    method UpdatePassword(id: int, oldPassword: string, newPassword: string) returns (r: Outcome<()>)
      requires Valid()
      modifies this
      ensures Valid() && UpdatePasswordDone(id, oldPassword, newPassword, r)
      ensures r.Ok? ==> exists a {:trigger Row(id, a) in accounts} :: Row(id, a) in accounts && hasher.verify(newPassword, a.hash)
      ensures old(OwnersAreMembers()) ==> OwnersAreMembers()
      ensures old(UniqueValues()) ==> UniqueValues()
    {
      var found := AccountExists(id);
      if found.Err? { return Err(found.error); }
      var before := found.value.data;
      GetExact(accounts, id, before);
      if !hasher.verify(oldPassword, before.hash) {
        return Err(InvalidCredentials);
      }
      var after := before.(hash := hasher.hash(newPassword));
      AccountChanged(accounts, chats, id, before, after, nextAccountId);
      accounts := Put(accounts, id, after);
      r := Ok(());
    }

    /** `delete_account`: refused while the account owns any chat; otherwise only the account goes. */
    method DeleteAccount(id: int) returns (r: Outcome<()>)
      requires Valid()
      modifies this
      ensures Valid() && DeleteAccountDone(id, r)
      ensures old(OwnersAreMembers()) ==> OwnersAreMembers()
      ensures old(UniqueValues()) ==> UniqueValues()
    {
      var found := AccountExists(id);
      if found.Err? { return Err(found.error); }
      if FirstWith(chats, Owner, id).Some? {
        return Err(ChatOwnerRemovalError);
      }
      accounts := Remove(accounts, id);
      r := Ok(());
    }

    // ---------------------------------------------------------------- properties across calls

    /** A second identical add-membership call answers "already a member" and changes nothing. */
    method AddMembershipTwice(chatId: int, accountId: int) returns (first: Outcome<(Membership, bool)>, second: Outcome<(Membership, bool)>)
      requires Valid()
      modifies this
      ensures first.Ok? ==> first.value.0 == Membership(accountId, chatId)
      ensures first.Ok? ==> second == Ok((Membership(accountId, chatId), false))
      ensures first.Ok? ==> memberships == old(memberships) + {Membership(accountId, chatId)}
      ensures first.Ok? ==> accounts == old(accounts) && chats == old(chats) && messages == old(messages)
      ensures first.Err? ==> second == first && unchanged(this)
    {
      first := AddAccountAsChatMember(chatId, accountId);
      ghost var between := (accounts, chats, messages, memberships);
      second := AddAccountAsChatMember(chatId, accountId);
      assert first.Ok? ==> (accounts, chats, messages, memberships) == between;
    }

    /** Renaming a chat to the name it already has is refused as a duplicate, and nothing changes. */
    method RenameToOwnName(chatId: int) returns (r: Outcome<Row<Chat>>)
      requires Valid() && chatId in Keys(chats)
      modifies this
      ensures r == Err(DuplicateModel("chat", "name", Get(old(chats), chatId).value.name)) && unchanged(this)
    {
      var name := Get(chats, chatId).value.name;
      r := UpdateChat(chatId, Some(name), None);
    }
  }

  /**
   * The first row holding a value that the row `id` does not hold is never that row itself. So in
   * `update_account`, once the new value differs from the current one, the `existing.id != id`
   * half of the duplicate test always holds: the test amounts to `existing is not None`.
   */
  lemma FirstMatchIsOther<K>(t: seq<Row<Account>>, col: Account -> K, k: K, id: int, current: Account)
    requires Increasing(t) && Row(id, current) in t && col(current) != k
    requires FirstWith(t, col, k).Some?
    ensures FirstWith(t, col, k).value.id != id
  {
    var first := FirstWith(t, col, k).value;
    if first.id == id {
      GetExact(t, id, first.data);
      GetExact(t, id, current);
    }
  }

  /**
   * The duplicate test of `update_account` lets a value through only when no other account holds
   * it. The second disjunct mirrors the source's `existing.id != id`; by FirstMatchIsOther it
   * never holds together with the others, so only the first disjunct is live.
   */
  lemma NotTakenByOther<K>(t: seq<Row<Account>>, col: Account -> K, k: K, id: int, current: Account)
    requires Increasing(t) && Row(id, current) in t && col(current) != k
    requires FirstWith(t, col, k).None? || FirstWith(t, col, k).value.id == id
    ensures !TakenByOther(t, col, k, id)
    ensures forall x {:trigger x in t} :: x in t && x.id != id ==> col(x.data) != k
  {
    if FirstWith(t, col, k).Some? {
      GetExact(t, id, FirstWith(t, col, k).value.data);
      GetExact(t, id, current);
    }
  }
}
