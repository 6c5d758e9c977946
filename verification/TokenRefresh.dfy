/** Authenticating a request: which token goes into the header, when it is refreshed first, and
    what a refresh leaves in the stores. */
module TokenRefresh {
  import opened Options
  import opened CredentialStores

  /** The answer to a refresh request; Refused stands for every failure. */
  datatype TokenReply = Refused | Tokens(access: string, refresh: string, expiresIn: int)

  datatype AuthResult = NotAuthenticated | Bearer(token: string)

  const MARGIN := 60

  /** The credentials a request uses: the profile's own when they hold a token, or what the manager finds. */
  function Effective(s: State, name: string, own: Option<Creds>, f: Faults): Lookup {
    if own.Some? && (own.value.apiKey != "" || own.value.access != "") then Found(own.value) else Get(s, name, f)
  }

  predicate Expiring(c: Creds) {
    c.access != "" && c.expiresAt > 0
  }

  predicate NeedsRefresh(c: Creds, now: int) {
    Expiring(c) && c.refresh != "" && now >= c.expiresAt - MARGIN
  }

  function Refreshed(c: Creds, t: TokenReply, now: int): Creds
    requires t.Tokens?
  {
    Creds(t.access, if t.refresh != "" then t.refresh else c.refresh,
          if t.expiresIn > 0 then now + t.expiresIn else c.expiresAt, c.apiKey)
  }

  /** The state after a refresh: saved where the profile keeps its credentials; when that fails,
      credentials that were the profile's own have still been updated in memory. */
  function AfterRefresh(s: State, name: string, own: bool, c: Creds, platform: Platform, f: Faults): State
    requires name in s.profiles
  {
    var p := s.profiles[name];
    var updated := if own then s.(profiles := s.profiles[name := p.(file := Some(c))]) else s;
    Save(updated, name, Some(c), p.store == KEYCHAIN, platform, f)
  }

  function Header(c: Creds, access: string): AuthResult {
    if Expiring(c) then Bearer(access) else if c.apiKey != "" then Bearer(c.apiKey) else NotAuthenticated
  }

  /** One request of a registered profile at time `now`, with `later` read after the refresh. */
  ghost predicate Authenticates(s: State, name: string, now: int, reply: TokenReply, later: int, platform: Platform, f: Faults,
                                r: AuthResult, attempted: bool, s': State)
    requires name in s.profiles
  {
    var file := s.profiles[name].file;
    var e := Effective(s, name, file, f);
    if !e.Found? then r == NotAuthenticated && !attempted && s' == s
    else
      && attempted == NeedsRefresh(e.creds, now)
      && if attempted && reply.Tokens? then
           var c := Refreshed(e.creds, reply, later);
           r == Header(e.creds, c.access) && s' == AfterRefresh(s, name, OwnUsed(s, name), c, platform, f)
         else r == Header(e.creds, e.creds.access) && s' == s
  }

  /** The credentials used are the object the profile itself holds. */
  predicate OwnUsed(s: State, name: string)
    requires name in s.profiles
  {
    var file := s.profiles[name].file;
    (file.Some? && (file.value.apiKey != "" || file.value.access != "")) || !InKeychain(s, name)
  }

  // ---------- When a refresh is attempted ----------

  /** After a refresh that was saved, the next request uses the refreshed credentials, whichever
      store holds them, or fails to read them. */
  lemma RefreshedAreUsed(s: State, name: string, own: bool, c: Creds, platform: Platform, f: Faults, g: Faults)
    requires name != "" && name in s.profiles
    requires !SaveFails(s, name, s.profiles[name].store == KEYCHAIN, platform, f)
    ensures var s' := AfterRefresh(s, name, own, c, platform, f);
            && name in s'.profiles
            && Effective(s', name, s'.profiles[name].file, g) == if Readable(s', name, g) then Found(c) else Broken
  {
    assert |KEYCHAIN| != |FILE|;
  }

  /** A refresh is attempted exactly when the credentials in use have an access token, a refresh
      token and an expiry at most a minute away. */
  lemma AttemptExactly(s: State, name: string, now: int, reply: TokenReply, later: int, platform: Platform, f: Faults,
                       r: AuthResult, attempted: bool, s': State)
    requires name in s.profiles && Authenticates(s, name, now, reply, later, platform, f, r, attempted, s')
    ensures attempted <==>
              exists c :: Effective(s, name, s.profiles[name].file, f) == Found(c)
                && c.access != "" && c.refresh != "" && 0 < c.expiresAt <= now + MARGIN
  {
    var e := Effective(s, name, s.profiles[name].file, f);
    if e.Found? {
      assert e == Found(e.creds);
    }
  }

  /** When the next refresh is due: after one that was saved, a later request attempts the next one
      exactly when it can read the new credentials, they carry an access token, and their expiry is
      at most a minute away. */
  lemma RefreshDueExactly(name: string, platform: Platform, s: State, now: int, reply: TokenReply, later: int, f: Faults, r: AuthResult, s': State,
                          now': int, reply': TokenReply, later': int, g: Faults, r': AuthResult, attempted: bool, s'': State)
    requires name != "" && name in s.profiles && name in s'.profiles && reply.Tokens?
    requires !SaveFails(s, name, s.profiles[name].store == KEYCHAIN, platform, f)
    requires Authenticates(s, name, now, reply, later, platform, f, r, true, s')
    requires Authenticates(s', name, now', reply', later', platform, g, r', attempted, s'')
    ensures var expiry := if reply.expiresIn > 0 then later + reply.expiresIn else Effective(s, name, s.profiles[name].file, f).creds.expiresAt;
            attempted <==> Readable(s', name, g) && reply.access != "" && 0 < expiry <= now' + 60
    ensures !attempted ==> s'' == s'
  {
    hide AfterRefresh, SaveFails, Get, OwnUsed;
    var e := Effective(s, name, s.profiles[name].file, f);
    RefreshedAreUsed(s, name, OwnUsed(s, name), Refreshed(e.creds, reply, later), platform, f, g);
    AttemptExactly(s', name, now', reply', later', platform, g, r', attempted, s'');
  }

  /** The keychain, if the profile uses it, can be read. */
  predicate Readable(s: State, name: string, f: Faults)
    requires name in s.profiles
  {
    !(s.profiles[name].store == KEYCHAIN && f.read)
  }

  /** A sequence of requests at the given times, each answered in some way. */
  ghost predicate Requests(name: string, platform: Platform, times: seq<int>, states: seq<State>, attempts: seq<bool>) {
    && |states| == |times| + 1 && |attempts| == |times|
    && forall i :: 0 <= i < |times| ==> name in states[i].profiles && Request(name, platform, times[i], states[i], attempts[i], states[i + 1])
  }

  ghost predicate Request(name: string, platform: Platform, now: int, s: State, attempted: bool, s': State)
    requires name in s.profiles
  {
    exists reply, later, f, r :: now <= later && Authenticates(s, name, now, reply, later, platform, f, r, attempted, s')
  }

  /** A refresh that succeeds with a lifetime above a minute keeps every request quiet until one
      minute before the new expiry, whatever the server would answer. */
  lemma {:induction false} RefreshSuppresses(name: string, platform: Platform, s: State, now: int, reply: TokenReply, later: int, f: Faults,
                                             r: AuthResult, times: seq<int>, states: seq<State>, attempts: seq<bool>, i: nat)
    requires name != "" && name in s.profiles && now <= later
    requires reply.Tokens? && reply.expiresIn > MARGIN
    requires !SaveFails(s, name, s.profiles[name].store == KEYCHAIN, platform, f)
    requires Requests(name, platform, times, states, attempts) && i <= |times|
    requires Authenticates(s, name, now, reply, later, platform, f, r, true, states[0])
    requires forall k :: 0 <= k < |times| ==> later <= times[k] < later + reply.expiresIn - MARGIN
    ensures states[i] == states[0]
    ensures forall k :: 0 <= k < i ==> !attempts[k]
  {
    if i > 0 {
      RefreshSuppresses(name, platform, s, now, reply, later, f, r, times, states, attempts, i - 1);
      assert Request(name, platform, times[i - 1], states[i - 1], attempts[i - 1], states[i]);
      hide Authenticates;
      var reply', later', g, r' :| times[i - 1] <= later' &&
        Authenticates(states[i - 1], name, times[i - 1], reply', later', platform, g, r', attempts[i - 1], states[i]);
      RefreshDueExactly(name, platform, s, now, reply, later, f, r, states[0], times[i - 1], reply', later', g, r', attempts[i - 1], states[i]);
    }
  }

  // ---------- Which token is sent ----------

  /** An access token with an expiry is sent, the new one if it has just been refreshed; without one
      the key is, if there is any.  An access token without an expiry is not used at all. */
  lemma HeaderExactly(s: State, name: string, now: int, reply: TokenReply, later: int, platform: Platform, f: Faults,
                      r: AuthResult, attempted: bool, s': State)
    requires name in s.profiles && Authenticates(s, name, now, reply, later, platform, f, r, attempted, s')
    ensures match Effective(s, name, s.profiles[name].file, f)
            case Found(c) =>
              r == if c.access != "" && c.expiresAt > 0 then Bearer(if attempted && reply.Tokens? then reply.access else c.access)
                   else if c.apiKey != "" then Bearer(c.apiKey) else NotAuthenticated
            case _ => r == NotAuthenticated
  {
  }

  /** Credentials of the profile itself that hold a token or a key are used whatever the keychain
      holds or answers; otherwise those of the manager are. */
  lemma OwnCredentialsFirst(s: State, name: string, f: Faults)
    requires name in s.profiles
    ensures match s.profiles[name].file
            case Some(c) => c.access != "" || c.apiKey != "" ==> Effective(s, name, s.profiles[name].file, f) == Found(c)
            case None => Effective(s, name, None, f) == Get(s, name, f)
  {
  }

  /** The request after a saved refresh has the new access token, the new refresh token if the server
      rotated it, the new expiry if it gave a lifetime, and the same key. */
  lemma RefreshRotates(name: string, platform: Platform, s: State, now: int, reply: TokenReply, later: int, f: Faults, r: AuthResult, s': State, g: Faults)
    requires name != "" && name in s.profiles && name in s'.profiles && reply.Tokens?
    requires !SaveFails(s, name, s.profiles[name].store == KEYCHAIN, platform, f)
    requires Authenticates(s, name, now, reply, later, platform, f, r, true, s')
    ensures var before, after := Effective(s, name, s.profiles[name].file, f).creds, Effective(s', name, s'.profiles[name].file, g);
            && (after == Broken || after.Found?) && (after.Found? <==> Readable(s', name, g))
            && (after.Found? ==>
                  && after.creds.access == reply.access && after.creds.apiKey == before.apiKey
                  && after.creds.refresh == (if reply.refresh == "" then before.refresh else reply.refresh)
                  && after.creds.expiresAt == (if reply.expiresIn <= 0 then before.expiresAt else later + reply.expiresIn))
  {
    hide AfterRefresh, SaveFails, Get, OwnUsed;
    var e := Effective(s, name, s.profiles[name].file, f);
    RefreshedAreUsed(s, name, OwnUsed(s, name), Refreshed(e.creds, reply, later), platform, f, g);
  }

  /** Even when the refreshed credentials cannot be saved, a profile that used its own has them in
      memory, so the next request sends the new token. */
  lemma UnsavedRefreshIsUsed(s: State, name: string, now: int, reply: TokenReply, later: int, platform: Platform, f: Faults, r: AuthResult, s': State,
                             c: Creds, g: Faults)
    requires ProperName(name) && name in s.profiles && s.profiles[name].file == Some(c) && c.access != "" && reply.Tokens? && reply.access != ""
    requires Authenticates(s, name, now, reply, later, platform, f, r, true, s')
    ensures name in s'.profiles
    ensures match Effective(s', name, s'.profiles[name].file, g)
            case Found(d) => d.access == reply.access && d.apiKey == c.apiKey && d.refresh == (if reply.refresh == "" then c.refresh else reply.refresh)
            case Broken => s.profiles[name].store == KEYCHAIN && g.read
            case _ => false
  {
    assert |KEYCHAIN| != |FILE|;
    assert Effective(s, name, s.profiles[name].file, f) == Found(c) && OwnUsed(s, name);
  }

  /** A request touches no other profile's credentials and keeps its own in the same kind of store. */
  lemma RequestElsewhere(s: State, name: string, now: int, reply: TokenReply, later: int, platform: Platform, f: Faults,
                         r: AuthResult, attempted: bool, s': State)
    requires ProperName(name) && name in s.profiles && Authenticates(s, name, now, reply, later, platform, f, r, attempted, s')
    ensures SameElsewhere(s, s', name) && s'.current == s.current
    ensures name in s'.profiles && (s'.profiles[name].store == KEYCHAIN <==> s.profiles[name].store == KEYCHAIN)
  {
    if s' != s {
      var e, own, p := Effective(s, name, s.profiles[name].file, f), OwnUsed(s, name), s.profiles[name];
      var c := Refreshed(e.creds, reply, later);
      var updated := if own then s.(profiles := s.profiles[name := p.(file := Some(c))]) else s;
      assert SameElsewhere(s, updated, name);
      hide Effective, Get, Abstract;
      SaveElsewhere(updated, name, Some(c), p.store == KEYCHAIN, platform, f);
      SaveKind(updated, name, Some(c), p.store == KEYCHAIN, platform, f);
    }
  }

  lemma SaveKind(s: State, name: string, creds: Option<Creds>, useKeychain: bool, platform: Platform, f: Faults)
    requires name != "" && name in s.profiles && useKeychain == (s.profiles[name].store == KEYCHAIN)
    ensures var s' := Save(s, name, creds, useKeychain, platform, f);
            name in s'.profiles && (s'.profiles[name].store == KEYCHAIN <==> s.profiles[name].store == KEYCHAIN)
  {
    assert |KEYCHAIN| != |FILE|;
  }

  // ---------- The environment token ----------

  function EnvCreds(token: string): Creds {
    Creds("", "", 0, token)
  }

  /** With the environment's token in the profile the header is exactly that token, nothing is
      refreshed and nothing changes, whatever either store contains. */
  lemma EnvTokenWins(s: State, name: string, now: int, reply: TokenReply, later: int, platform: Platform, f: Faults,
                     r: AuthResult, attempted: bool, s': State, token: string)
    requires name in s.profiles && token != "" && s.profiles[name].file == Some(EnvCreds(token))
    requires Authenticates(s, name, now, reply, later, platform, f, r, attempted, s')
    ensures r == Bearer(token) && !attempted && s' == s
  {
  }
}
