/** One chat connection: who the session acts for, and which conversations it holds. */
module ChatSession {
  import opened Options

  datatype Claims = Claims(userId: string, role: string, sessionId: string, impersonatedBy: string, metadataRoles: seq<string>)

  datatype Identity = Identity(userId: Option<string>, role: string, claims: Option<Claims>)

  datatype Chatbot = Chatbot(id: string, enabled: bool, allowUnauthenticated: bool, requireRoles: seq<string>)

  datatype Conversation = Conversation(id: string, userId: Option<string>)

  /** What the stores and the limiter answer during one start_chat: the chatbot lookup (None is a
      failure), whether the impersonated user exists, the two limits, the conversation found for
      resumption, and the id of a new conversation. */
  datatype Lookups = Lookups(chatbot: Option<Option<Chatbot>>, userExists: Option<bool>, withinRate: bool, withinDaily: bool,
                             found: Option<Conversation>, newId: Option<string>)

  datatype ClientMessage =
    | StartChat(conversationId: string, impersonate: string, lookups: Lookups)
    | ChatMessage
    | Cancel
    | Unknown

  datatype ErrorCode =
    | ChatbotError | ChatbotNotFound | Forbidden | UserError | UserNotFound | AuthRequired
    | RateLimited | DailyLimit | ConversationError | UnknownType

  datatype Reply = ChatStarted(conversationId: string) | CancelledReply | NoReply | Error(code: ErrorCode)

  const INSTANCE_ADMIN := "instance_admin"
  const AUTHENTICATED := "authenticated"

  predicate IsInstanceAdmin(who: Identity) {
    who.role == INSTANCE_ADMIN || (who.claims.Some? && who.claims.value.role == INSTANCE_ADMIN)
  }

  function OwnerName(userId: Option<string>): string {
    if userId.Some? then userId.value else ""
  }

  predicate OwnedBy(c: Conversation, userId: Option<string>) {
    OwnerName(c.userId) == OwnerName(userId)
  }

  predicate HasRequiredRole(claims: Claims, required: seq<string>) {
    (claims.role != "" && claims.role in required) || exists i :: 0 <= i < |claims.metadataRoles| && claims.metadataRoles[i] in required
  }

  // ---------- What one start_chat does ----------

  function Usable(m: ClientMessage): bool
    requires m.StartChat?
  {
    m.lookups.chatbot.Some? && m.lookups.chatbot.value.Some? && m.lookups.chatbot.value.value.enabled
  }

  /** The message makes the session act for another user. */
  predicate Swaps(who: Identity, m: ClientMessage) {
    m.StartChat? && Usable(m) && m.impersonate != "" && IsInstanceAdmin(who) && m.lookups.userExists == Some(true)
  }

  function Impersonating(who: Identity, user: string): Identity {
    Identity(Some(user), AUTHENTICATED,
             if who.claims.None? then None
             else Some(Claims(user, AUTHENTICATED, "", if who.userId.Some? then who.userId.value else "unknown", who.claims.value.metadataRoles)))
  }

  function IdentityAfter(who: Identity, m: ClientMessage): Identity {
    if Swaps(who, m) then Impersonating(who, m.impersonate) else who
  }

  /** The session may use the chatbot. */
  predicate MayUse(who: Identity, bot: Chatbot) {
    && bot.enabled
    && (bot.allowUnauthenticated || who.userId.Some?)
    && (bot.requireRoles != [] && who.claims.Some? ==> HasRequiredRole(who.claims.value, bot.requireRoles))
  }

  /** The conversation that gets stored: the caller's own one resumed, or a new one for the caller. */
  function Opened(who: Identity, m: ClientMessage): Option<Conversation>
    requires m.StartChat?
  {
    var found := if m.conversationId != "" then m.lookups.found else None;
    if found.Some? then (if OwnedBy(found.value, who.userId) then found else None)
    else if m.lookups.newId.Some? then Some(Conversation(m.lookups.newId.value, who.userId))
    else None
  }

  /** The conversation a start_chat stores, judged by the identity it ends up with; None when it is refused. */
  function Stored(who: Identity, m: ClientMessage): Option<Conversation> {
    if m.StartChat? && Usable(m) && (m.impersonate == "" || Swaps(who, m))
       && MayUse(IdentityAfter(who, m), m.lookups.chatbot.value.value)
       && m.lookups.withinRate && m.lookups.withinDaily
    then Opened(IdentityAfter(who, m), m) else None
  }

  /** The error a refused start_chat reports: that of the first check that fails. */
  function Refusal(who: Identity, m: ClientMessage): ErrorCode
    requires m.StartChat?
  {
    var now := IdentityAfter(who, m);
    if m.lookups.chatbot.None? then ChatbotError
    else if !Usable(m) then ChatbotNotFound
    else if m.impersonate != "" && !IsInstanceAdmin(who) then Forbidden
    else if m.impersonate != "" && m.lookups.userExists.None? then UserError
    else if m.impersonate != "" && !m.lookups.userExists.value then UserNotFound
    else if !m.lookups.chatbot.value.value.allowUnauthenticated && now.userId.None? then AuthRequired
    else if !MayUse(now, m.lookups.chatbot.value.value) then Forbidden
    else if !m.lookups.withinRate then RateLimited
    else if !m.lookups.withinDaily then DailyLimit
    else if m.conversationId != "" && m.lookups.found.Some? then Forbidden
    else ConversationError
  }

  function ReplyTo(who: Identity, m: ClientMessage): Reply {
    match m
    case StartChat(_, _, _) => if Stored(who, m).Some? then ChatStarted(Stored(who, m).value.id) else Error(Refusal(who, m))
    case ChatMessage => NoReply
    case Cancel => CancelledReply
    case Unknown => Error(UnknownType)
  }

  datatype View = View(who: Identity, conversations: map<string, Conversation>, active: Option<Chatbot>, closed: bool)

  function After(v: View, m: ClientMessage): View {
    if v.closed then v
    else if m.Cancel? then v.(closed := true)
    else
      var stored := Stored(v.who, m);
      v.(who := IdentityAfter(v.who, m),
         conversations := if stored.Some? then v.conversations[stored.value.id := stored.value] else v.conversations,
         active := if stored.Some? then m.lookups.chatbot.value else v.active)
  }

  // ---------- The connection ----------

  class ChatContext {
    var userId: Option<string>
    var role: string
    var claims: Option<Claims>
    var conversations: map<string, Conversation>
    var activeChatbot: Option<Chatbot>
    var closed: bool

    constructor (who: Identity)
      ensures Contents() == View(who, map[], None, false)
    {
      userId, role, claims := who.userId, who.role, who.claims;
      conversations, activeChatbot, closed := map[], None, false;
    }

    function Contents(): View
      reads this
    {
      View(Identity(userId, role, claims), conversations, activeChatbot, closed)
    }

    /** Makes the session act for another user, if an admin asks for one that exists. */
    method Impersonate(user: string, userExists: Option<bool>) returns (refused: Option<ErrorCode>)
      modifies this`userId, this`role, this`claims
      ensures var who := old(Contents()).who;
              && refused == (if !IsInstanceAdmin(who) then Some(Forbidden)
                             else if userExists.None? then Some(UserError)
                             else if !userExists.value then Some(UserNotFound)
                             else None)
              && Contents().who == if refused.None? then Impersonating(who, user) else who
    {
      if !IsInstanceAdmin(Identity(userId, role, claims)) {
        return Some(Forbidden);
      }
      if userExists.None? {
        return Some(UserError);
      }
      if !userExists.value {
        return Some(UserNotFound);
      }
      var adminId := if userId.Some? then userId.value else "unknown";
      userId := Some(user);
      role := AUTHENTICATED;
      if claims.Some? {
        claims := Some(claims.value.(userId := user, role := AUTHENTICATED, sessionId := "", impersonatedBy := adminId));
      }
      refused := None;
    }

    method HandleStartChat(m: ClientMessage) returns (r: Reply)
      requires m.StartChat? && !closed
      modifies this
      ensures Contents() == After(old(Contents()), m) && r == ReplyTo(old(Contents()).who, m)
    {
      hide HasRequiredRole, IsInstanceAdmin, OwnedBy;
      var lookups := m.lookups;
      if lookups.chatbot.None? {
        return Error(ChatbotError);
      }
      if lookups.chatbot.value.None? || !lookups.chatbot.value.value.enabled {
        return Error(ChatbotNotFound);
      }
      var chatbot := lookups.chatbot.value.value;
      if m.impersonate != "" {
        var refused := Impersonate(m.impersonate, lookups.userExists);
        if refused.Some? {
          return Error(refused.value);
        }
      }
      if !chatbot.allowUnauthenticated && userId.None? {
        return Error(AuthRequired);
      }
      if |chatbot.requireRoles| > 0 && claims.Some? {
        if !HasRequiredRole(claims.value, chatbot.requireRoles) {
          return Error(Forbidden);
        }
      }
      if !lookups.withinRate {
        return Error(RateLimited);
      }
      if !lookups.withinDaily {
        return Error(DailyLimit);
      }
      var state: Option<Conversation> := None;
      if m.conversationId != "" {
        state := lookups.found;
        if state.Some? && !OwnedBy(state.value, userId) {
          return Error(Forbidden);
        }
      }
      if state.None? {
        if lookups.newId.None? {
          return Error(ConversationError);
        }
        state := Some(Conversation(lookups.newId.value, userId));
      }
      activeChatbot := Some(chatbot);
      conversations := conversations[state.value.id := state.value];
      r := ChatStarted(state.value.id);
    }

    /** The message loop: it ends with the connection, which a cancel closes. */
    method HandleConnection(messages: seq<ClientMessage>) returns (replies: seq<Reply>)
      modifies this
      ensures Contents() == Run(old(Contents()), messages) && replies == Replies(old(Contents()), messages)
    {
      replies := [];
      var i := 0;
      while i < |messages| && !closed
        invariant 0 <= i <= |messages|
        invariant Run(Contents(), messages[i..]) == Run(old(Contents()), messages)
        invariant replies + Replies(Contents(), messages[i..]) == Replies(old(Contents()), messages)
      {
        var m := messages[i];
        ghost var before := replies;
        ghost var rest := Replies(After(Contents(), m), messages[i + 1..]);
        assert messages[i..][1..] == messages[i + 1..] && messages[i..][0] == m;
        match m {
          case StartChat(_, _, _) =>
            var r := HandleStartChat(m);
            replies := replies + [r];
          case Cancel =>
            closed := true;
            replies := replies + [CancelledReply];
          case ChatMessage =>
            replies := replies + [NoReply];
          case Unknown =>
            replies := replies + [Error(UnknownType)];
        }
        assert before + ([replies[|before|]] + rest) == replies + rest;
        i := i + 1;
      }
      ClosedStays(Contents(), messages[i..]);
    }
  }

  // ---------- Whole runs ----------

  function Run(v: View, messages: seq<ClientMessage>): View
    decreases |messages|
  {
    if messages == [] then v else Run(After(v, messages[0]), messages[1..])
  }

  /** The replies of a run; a closed connection answers nothing. */
  function Replies(v: View, messages: seq<ClientMessage>): seq<Reply>
    decreases |messages|
  {
    if messages == [] || v.closed then [] else [ReplyTo(v.who, messages[0])] + Replies(After(v, messages[0]), messages[1..])
  }

  lemma {:induction false} ClosedStays(v: View, messages: seq<ClientMessage>)
    requires v.closed || messages == []
    ensures Run(v, messages) == v
    decreases |messages|
  {
    if messages != [] {
      ClosedStays(v, messages[1..]);
    }
  }

  /** How often a run makes the session act for somebody else. */
  function SwapCount(v: View, messages: seq<ClientMessage>): nat
    decreases |messages|
  {
    if messages == [] then 0
    else (if !v.closed && Swaps(v.who, messages[0]) then 1 else 0) + SwapCount(After(v, messages[0]), messages[1..])
  }

  /** Acting for a user ends the admin's rights for good, and only an admin can start it. */
  lemma SwapEndsAdmin(who: Identity, m: ClientMessage)
    ensures Swaps(who, m) ==> IsInstanceAdmin(who) && !IsInstanceAdmin(IdentityAfter(who, m))
    ensures Swaps(who, m) ==> IdentityAfter(who, m).userId == Some(m.impersonate)
    ensures !Swaps(who, m) ==> IdentityAfter(who, m) == who
  {
    assert |AUTHENTICATED| != |INSTANCE_ADMIN|;
  }

  /** Without admin rights nobody's identity changes, whatever messages arrive. */
  lemma {:induction false} OrdinaryIdentityFixed(v: View, messages: seq<ClientMessage>)
    requires !IsInstanceAdmin(v.who)
    ensures Run(v, messages).who == v.who && SwapCount(v, messages) == 0
    decreases |messages|
  {
    if messages != [] {
      SwapEndsAdmin(v.who, messages[0]);
      OrdinaryIdentityFixed(After(v, messages[0]), messages[1..]);
    }
  }

  /** Over a whole run the identity changes at most once; after a change the session is no admin,
      and without one it is who it was. */
  lemma {:induction false} SwapAtMostOnce(v: View, messages: seq<ClientMessage>)
    ensures SwapCount(v, messages) <= 1
    ensures SwapCount(v, messages) == 0 ==> Run(v, messages).who == v.who
    ensures SwapCount(v, messages) == 1 ==> IsInstanceAdmin(v.who) && !IsInstanceAdmin(Run(v, messages).who)
    decreases |messages|
  {
    if messages != [] {
      SwapEndsAdmin(v.who, messages[0]);
      if !v.closed && Swaps(v.who, messages[0]) {
        OrdinaryIdentityFixed(After(v, messages[0]), messages[1..]);
      } else {
        SwapAtMostOnce(After(v, messages[0]), messages[1..]);
      }
    }
  }

  /** A start_chat stores only a conversation of the identity it ends up with, on a chatbot that
      identity may use. */
  lemma StoredIsOwned(who: Identity, m: ClientMessage)
    requires Stored(who, m).Some?
    ensures OwnedBy(Stored(who, m).value, IdentityAfter(who, m).userId)
    ensures MayUse(IdentityAfter(who, m), m.lookups.chatbot.value.value)
  {
  }

  /** Conversation c entered the session during the run, at a moment when its owner was the current user. */
  ghost predicate EnteredOwned(v: View, messages: seq<ClientMessage>, c: Conversation) {
    exists k :: 0 <= k < |messages| && EnteredAt(v, messages, c, k)
  }

  ghost predicate EnteredAt(v: View, messages: seq<ClientMessage>, c: Conversation, k: nat)
    requires k < |messages|
  {
    var before, after := Run(v, messages[..k]), Run(v, messages[..k + 1]);
    && !before.closed && Stored(before.who, messages[k]) == Some(c)
    && OwnedBy(c, after.who.userId)
    && MayUse(after.who, messages[k].lookups.chatbot.value.value)
  }

  lemma {:induction false} RunSnoc(v: View, messages: seq<ClientMessage>, m: ClientMessage)
    ensures Run(v, messages + [m]) == After(Run(v, messages), m)
    decreases |messages|
  {
    if messages == [] {
      assert (messages + [m])[1..] == [];
    } else {
      assert (messages + [m])[1..] == messages[1..] + [m];
      RunSnoc(After(v, messages[0]), messages[1..], m);
    }
  }

  /** Every conversation a session holds was the current user's own when it entered. */
  lemma {:induction false} ConversationsEnteredOwned(v: View, messages: seq<ClientMessage>, id: string)
    requires id in Run(v, messages).conversations
    ensures var c := Run(v, messages).conversations[id];
            (id in v.conversations && v.conversations[id] == c) || EnteredOwned(v, messages, c)
    decreases |messages|
  {
    if messages != [] {
      var init, m := messages[..|messages| - 1], messages[|messages| - 1];
      assert messages == init + [m];
      RunSnoc(v, init, m);
      hide Run, Stored;
      var before, after := Run(v, init), Run(v, messages);
      var c := after.conversations[id];
      var stored := Stored(before.who, m);
      if !before.closed && !m.Cancel? && stored == Some(c) {
        StoredIsOwned(before.who, m);
        assert messages[..|init|] == init && messages[..|init| + 1] == messages;
        assert EnteredAt(v, messages, c, |init|);
      } else {
        assert id in before.conversations && before.conversations[id] == c;
        ConversationsEnteredOwned(v, init, id);
        if EnteredOwned(v, init, c) {
          var k :| 0 <= k < |init| && EnteredAt(v, init, c, k);
          assert messages[..k] == init[..k] && messages[..k + 1] == init[..k + 1];
          assert EnteredAt(v, messages, c, k);
        }
      }
    }
  }

  /** So each of them belongs to the user the connection started with or to the current one. */
  lemma {:induction false} OwnersAreFirstOrCurrent(v: View, messages: seq<ClientMessage>)
    requires v.conversations == map[]
    ensures var r := Run(v, messages);
            forall id :: id in r.conversations ==>
              OwnedBy(r.conversations[id], v.who.userId) || OwnedBy(r.conversations[id], r.who.userId)
  {
    forall id | id in Run(v, messages).conversations
      ensures var r := Run(v, messages);
              OwnedBy(r.conversations[id], v.who.userId) || OwnedBy(r.conversations[id], r.who.userId)
    {
      ConversationsEnteredOwned(v, messages, id);
      var c := Run(v, messages).conversations[id];
      var k :| 0 <= k < |messages| && EnteredAt(v, messages, c, k);
      RunSplit(v, messages, k + 1);
      SwapAtMostOnce(v, messages[..k + 1]);
      SwapAtMostOnce(Run(v, messages[..k + 1]), messages[k + 1..]);
      if SwapCount(v, messages[..k + 1]) == 1 {
        OrdinaryIdentityFixed(Run(v, messages[..k + 1]), messages[k + 1..]);
      }
    }
  }

  lemma {:induction false} RunSplit(v: View, messages: seq<ClientMessage>, k: nat)
    requires k <= |messages|
    ensures Run(v, messages) == Run(Run(v, messages[..k]), messages[k..])
    decreases k
  {
    if k == 0 {
      assert messages[0..] == messages;
    } else {
      RunSplit(After(v, messages[0]), messages[1..], k - 1);
      assert messages[..k][1..] == messages[1..][..k - 1];
      assert messages[1..][k - 1..] == messages[k..];
    }
  }

  // ---------- What a start_chat amounts to ----------

  /** Only start_chat changes who the session is or what it holds; a cancel closes it and nothing else
      does; a chat message or an unknown one leaves it as it is. */
  lemma OtherMessagesKeep(v: View, m: ClientMessage)
    ensures !m.StartChat? ==> After(v, m) == v.(closed := v.closed || m.Cancel?)
    ensures m.StartChat? ==> After(v, m).closed == v.closed
    ensures match m
            case ChatMessage => ReplyTo(v.who, m) == NoReply
            case Cancel => ReplyTo(v.who, m) == CancelledReply
            case Unknown => ReplyTo(v.who, m) == Error(UnknownType)
            case StartChat(_, _, _) => ReplyTo(v.who, m).ChatStarted? || ReplyTo(v.who, m).Error?
  {
  }

  /** One reply per message while the connection is open, each given by the session as it then is; the
      replies stop at the end of the messages or when the connection is closed. */
  lemma {:induction false} RepliesExactly(v: View, messages: seq<ClientMessage>, k: nat)
    ensures var replies := Replies(v, messages);
            && |replies| <= |messages|
            && (k < |replies| ==> !Run(v, messages[..k]).closed && replies[k] == ReplyTo(Run(v, messages[..k]).who, messages[k]))
            && (k == |replies| < |messages| ==> Run(v, messages[..k]).closed)
    decreases |messages|
  {
    if messages != [] && !v.closed {
      var rest := messages[1..];
      RepliesExactly(After(v, messages[0]), rest, if k > 0 then k - 1 else 0);
      if 0 < k <= |messages| {
        assert messages[..k][1..] == rest[..k - 1];
      }
    }
  }

  /** When the session starts to act for a user, its claims are that user's: they name the user and,
      as the one behind it, who the session was before; the admin's token session is dropped and the
      metadata roles stay. */
  lemma ClaimsRewritten(v: View, m: ClientMessage)
    requires !v.closed && Swaps(v.who, m)
    ensures var who := After(v, m).who;
            && who.userId == Some(m.impersonate) && who.role == "authenticated"
            && (who.claims.Some? <==> v.who.claims.Some?)
            && (who.claims.Some? ==>
                  && who.claims.value.userId == m.impersonate && who.claims.value.role == "authenticated"
                  && who.claims.value.impersonatedBy == (match v.who.userId case Some(id) => id case None => "unknown")
                  && who.claims.value.sessionId == "" && who.claims.value.metadataRoles == v.who.claims.value.metadataRoles)
  {
  }

  /** Claims and session name the same user. */
  ghost predicate ClaimsAgree(who: Identity) {
    who.claims.Some? ==> who.userId == Some(who.claims.value.userId)
  }

  /** If they do when a connection starts, they do after any messages. */
  lemma {:induction false} ClaimsAlwaysAgree(v: View, messages: seq<ClientMessage>)
    requires ClaimsAgree(v.who)
    ensures ClaimsAgree(Run(v, messages).who)
    decreases |messages|
  {
    if messages != [] {
      if !v.closed && Swaps(v.who, messages[0]) {
        ClaimsRewritten(v, messages[0]);
      } else {
        SwapEndsAdmin(v.who, messages[0]);
      }
      ClaimsAlwaysAgree(After(v, messages[0]), messages[1..]);
    }
  }

  /** The session is an instance admin by its role or by its claims. */
  ghost predicate AdminByEither(who: Identity) {
    who.role == "instance_admin" || match who.claims case Some(claims) => claims.role == "instance_admin" case None => false
  }

  /** The user the message makes the session act for, or the one it has. */
  function Acting(who: Identity, m: ClientMessage): string
    requires m.StartChat?
  {
    if m.impersonate != "" then m.impersonate else match who.userId case Some(id) => id case None => ""
  }

  /** Claims that hold one of the required roles: by their role, which acting for a user sets to
      "authenticated", or by a metadata role. */
  ghost predicate HoldsRequired(claims: Claims, acting: bool, required: seq<string>) {
    || (acting && "authenticated" in required)
    || (!acting && claims.role != "" && claims.role in required)
    || exists role :: role in claims.metadataRoles && role in required
  }

  /** A conversation is resumed if the message names one that is found. */
  predicate Resumes(m: ClientMessage)
    requires m.StartChat?
  {
    m.conversationId != "" && m.lookups.found.Some?
  }

  /** The chatbot can be used and, if the message asks for it, acting for its user is granted. */
  ghost predicate Granted(who: Identity, m: ClientMessage)
    requires m.StartChat?
  {
    && (match m.lookups.chatbot case Some(Some(bot)) => bot.enabled case _ => false)
    && (m.impersonate != "" ==> AdminByEither(who) && m.lookups.userExists == Some(true))
  }

  lemma GrantedExactly(who: Identity, m: ClientMessage)
    requires m.StartChat?
    ensures Granted(who, m) <==> Usable(m) && (m.impersonate == "" || Swaps(who, m))
    ensures m.impersonate == "" ==> !Swaps(who, m)
  {
  }

  /** When a chat starts, and what the session then holds: every check passes, and the conversation is
      the one found if it belongs to the acting user, or else a new one of that user. */
  lemma StartedExactly(v: View, m: ClientMessage)
    requires m.StartChat? && !v.closed
    ensures var r, w, l := ReplyTo(v.who, m), After(v, m), m.lookups;
            && (r.ChatStarted? <==>
                  && Granted(v.who, m)
                  && var bot := l.chatbot.value.value;
                  && (bot.allowUnauthenticated || m.impersonate != "" || v.who.userId.Some?)
                  && (bot.requireRoles != [] && v.who.claims.Some? ==> HoldsRequired(v.who.claims.value, m.impersonate != "", bot.requireRoles))
                  && l.withinRate && l.withinDaily
                  && if Resumes(m) then OwnerName(l.found.value.userId) == Acting(v.who, m) else l.newId.Some?)
            && (r.ChatStarted? ==>
                  && w.active == l.chatbot.value && r.conversationId in w.conversations
                  && w.conversations == v.conversations[r.conversationId := w.conversations[r.conversationId]]
                  && var c := w.conversations[r.conversationId];
                  c.id == r.conversationId && if Resumes(m) then c == l.found.value else c.id == l.newId.value && OwnerName(c.userId) == Acting(v.who, m))
            && (!r.ChatStarted? ==> r.Error? && w.active == v.active && w.conversations == v.conversations)
  {
    GrantedExactly(v.who, m);
    hide Swaps, Usable, Granted, IsInstanceAdmin;
    if Granted(v.who, m) && v.who.claims.Some? {
      RolesHeld(v.who, m);
    }
  }

  lemma RolesHeld(who: Identity, m: ClientMessage)
    requires m.StartChat? && who.claims.Some? && Granted(who, m)
    ensures var now := IdentityAfter(who, m);
            now.claims.Some? && forall required ::
              HasRequiredRole(now.claims.value, required) <==> HoldsRequired(who.claims.value, m.impersonate != "", required)
  {
    GrantedExactly(who, m);
  }

  /** A refusal names a check that did fail. */
  lemma RefusalSound(v: View, m: ClientMessage)
    requires m.StartChat? && !v.closed && ReplyTo(v.who, m).Error?
    ensures var l := m.lookups;
            match ReplyTo(v.who, m).code
            case ChatbotError => l.chatbot.None?
            case ChatbotNotFound => l.chatbot.Some? && (l.chatbot.value.Some? ==> !l.chatbot.value.value.enabled)
            case UserError => m.impersonate != "" && l.userExists.None?
            case UserNotFound => m.impersonate != "" && l.userExists == Some(false)
            case AuthRequired => m.impersonate == "" && v.who.userId.None?
            case RateLimited => !l.withinRate
            case DailyLimit => !l.withinDaily
            case ConversationError => l.newId.None? && !Resumes(m)
            case Forbidden =>
              || (m.impersonate != "" && !AdminByEither(v.who))
              || (v.who.claims.Some? && l.chatbot.Some? && l.chatbot.value.Some? &&
                  !HoldsRequired(v.who.claims.value, m.impersonate != "", l.chatbot.value.value.requireRoles))
              || (Resumes(m) && OwnerName(l.found.value.userId) != Acting(v.who, m))
            case UnknownType => false
  {
    if Granted(v.who, m) && v.who.claims.Some? {
      RolesHeld(v.who, m);
    }
    GrantedExactly(v.who, m);
    hide HasRequiredRole, HoldsRequired;
  }
}
