/** The API client over a profile and its credential manager, and how the environment overrides
    what is stored. */
module Client {
  import opened Options
  import opened CredentialStores
  import opened TokenRefresh
  import opened Manager

  class ApiClient {
    const profile: Profile
    const manager: CredentialManager

    constructor (profile: Profile, manager: CredentialManager)
      ensures this.profile == profile && this.manager == manager
    {
      this.profile, this.manager := profile, manager;
    }

    ghost predicate Registered()
      reads manager.config
    {
      && manager.config.Valid() && profile.name != ""
      && profile.name in manager.config.profiles && manager.config.profiles[profile.name] == profile
    }

    /** A profile made from the environment alone is not in the configuration. */
    ghost predicate FromEnvironment()
      reads profile
    {
      profile.credentials.Some? && profile.credentials.value.access == "" && profile.credentials.value.apiKey != ""
    }

    method AddAuth(now: int, reply: TokenReply, later: int, f: Faults) returns (r: AuthResult, attempted: bool)
      requires Registered() || FromEnvironment()
      modifies profile, manager.config.profiles.Values, manager.keychain
      ensures old(Registered()) ==>
                Authenticates(old(manager.Snapshot()), profile.name, now, reply, later, manager.keychain.platform, f, r, attempted, manager.Snapshot())
      ensures old(FromEnvironment()) ==>
                r == Bearer(old(profile.credentials.value.apiKey)) && !attempted && manager.Snapshot() == old(manager.Snapshot())
    {
      attempted := false;
      var creds, own;
      if profile.credentials.Some? && (profile.credentials.value.apiKey != "" || profile.credentials.value.access != "") {
        creds, own := profile.credentials.value, true;
      } else {
        var found;
        found, own := manager.GetCredentials(profile.name, f);
        if !found.Found? {
          return NotAuthenticated, false;
        }
        creds := found.creds;
      }
      if creds.access != "" && creds.expiresAt > 0 {
        if now >= creds.expiresAt - MARGIN && creds.refresh != "" {
          attempted := true;
          creds := RefreshToken(creds, own, reply, later, f);
        }
        r := Bearer(creds.access);
      } else if creds.apiKey != "" {
        r := Bearer(creds.apiKey);
      } else {
        r := NotAuthenticated;
      }
    }

    /** Exchanges the refresh token; the credentials are updated before they are saved. */
    method RefreshToken(creds: Creds, own: bool, reply: TokenReply, later: int, f: Faults) returns (updated: Creds)
      requires Registered()
      modifies manager.config.profiles.Values, manager.keychain
      ensures updated == if reply.Tokens? then Refreshed(creds, reply, later) else creds
      ensures manager.Snapshot() ==
              if reply.Tokens? then AfterRefresh(old(manager.Snapshot()), profile.name, own, updated, manager.keychain.platform, f)
              else old(manager.Snapshot())
    {
      if reply.Refused? {
        return creds;
      }
      updated := creds.(access := reply.access);
      if reply.refresh != "" {
        updated := updated.(refresh := reply.refresh);
      }
      if reply.expiresIn > 0 {
        updated := updated.(expiresAt := later + reply.expiresIn);
      }
      if own {
        manager.config.Assign(profile, profile.credentialStore, Some(updated));
      }
      var ok := manager.SaveCredentials(profile.name, Some(updated), profile.credentialStore == KEYCHAIN, f);
    }
  }

  /** Setting up the client: the profile named by the flag, the environment or the configuration,
      with the environment's server and token taking precedence over the stored ones. */
  method InitializeClient(config: Config, keychain: KeychainStore, flagProfile: string, envProfile: string, envServer: string, envToken: string)
    returns (c: ApiClient?)
    requires config.Valid()
    modifies config.profiles.Values
    ensures var name := if flagProfile != "" then flagProfile else if envProfile != "" then envProfile else config.currentProfile;
            var stored := if name != "" && name in config.profiles then config.profiles[name] else null;
            && (c == null <==> stored == null && (envServer == "" || envToken == ""))
            && (c != null && stored != null ==> c.profile == stored && c.manager.config == config && c.Registered())
            && (c != null && stored == null ==> c.FromEnvironment() && fresh(c.profile))
            && (forall n :: n in config.profiles && (c == null || config.profiles[n] != c.profile) ==> unchanged(config.profiles[n]))
            && (c != null && stored != null ==> stored.credentialStore == old(stored.credentialStore))
            && (c != null ==> c.profile.server == if envServer != "" then envServer else old(stored.server))
            && (c != null ==> c.profile.credentials == if envToken != "" then Some(EnvCreds(envToken)) else old(stored.credentials))
  {
    var pName := flagProfile;
    if pName == "" {
      pName := envProfile;
    }
    if pName == "" {
      pName := config.currentProfile;
    }
    var profile := config.GetProfile(pName);
    if profile == null {
      if envServer != "" && envToken != "" {
        profile := new Profile("", envServer, "", Some(EnvCreds(envToken)));
      } else {
        return null;
      }
    }
    if envServer != "" {
      profile.server := envServer;
    }
    if envToken != "" {
      profile.credentials := Some(EnvCreds(envToken));
    }
    var manager := new CredentialManager(config, keychain);
    c := new ApiClient(profile, manager);
  }
}
