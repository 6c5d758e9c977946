/** The configuration, keychain and credential manager as the objects they are.  Each method is
    tied to the value-level operation on the snapshot of both stores. */
module Manager {
  import opened Options
  import opened CredentialStores

  class Profile {
    const name: string
    var server: string
    var credentialStore: string
    var credentials: Option<Creds>

    constructor (name: string, server: string, credentialStore: string, credentials: Option<Creds>)
      ensures this.name == name && this.server == server && Snapshot() == ProfileState(credentialStore, credentials)
    {
      this.name, this.server, this.credentialStore, this.credentials := name, server, credentialStore, credentials;
    }

    function Snapshot(): ProfileState
      reads this
    {
      ProfileState(credentialStore, credentials)
    }
  }

  class Config {
    var currentProfile: string
    var profiles: map<string, Profile>

    constructor ()
      ensures currentProfile == "" && profiles == map[] && Valid()
    {
      currentProfile, profiles := "", map[];
    }

    /** Every profile is registered under its own name. */
    ghost predicate Valid()
      reads this
    {
      forall n :: n in profiles ==> profiles[n].name == n
    }

    ghost function Snapshot(): map<string, ProfileState>
      reads this, profiles.Values
    {
      map n | n in profiles :: profiles[n].Snapshot()
    }

    method GetProfile(name: string) returns (p: Profile?)
      ensures var n := if name == "" then currentProfile else name;
              p == if n != "" && n in profiles then profiles[n] else null
    {
      var n := if name == "" then currentProfile else name;
      p := if n != "" && n in profiles then profiles[n] else null;
    }

    method SetProfile(p: Profile)
      requires Valid()
      modifies this`profiles
      ensures Valid() && profiles == old(profiles)[p.name := p]
      ensures Snapshot() == old(Snapshot())[p.name := p.Snapshot()]
    {
      profiles := profiles[p.name := p];
    }

    /** Writes the credential fields of a registered profile. */
    method Assign(profile: Profile, store: string, creds: Option<Creds>)
      requires Valid() && profile.name in profiles && profiles[profile.name] == profile
      modifies profile
      ensures Valid() && Snapshot() == old(Snapshot())[profile.name := ProfileState(store, creds)]
    {
      profile.credentialStore := store;
      profile.credentials := creds;
    }

    method DeleteProfile(name: string) returns (ok: bool)
      requires Valid()
      modifies this
      ensures Valid() && (ok <==> name in old(profiles)) && profiles == old(profiles) - {name}
      ensures Snapshot() == old(Snapshot()) - {name}
      ensures if !ok || old(currentProfile) != name then currentProfile == old(currentProfile)
              else if profiles == map[] then currentProfile == "" else currentProfile in profiles
    {
      if name !in profiles {
        assert profiles - {name} == profiles;
        return false;
      }
      profiles := profiles - {name};
      if currentProfile == name {
        currentProfile := "";
        if profiles != map[] {
          assert profiles.Keys != {};
          var first :| first in profiles;
          currentProfile := first;
        }
      }
      ok := true;
    }
  }

  class KeychainStore {
    var entries: map<string, Entry>
    const platform: Platform

    constructor (platform: Platform)
      ensures entries == map[] && this.platform == platform
    {
      entries := map[];
      this.platform := platform;
    }

    method IsAvailable(f: Faults) returns (r: bool)
      modifies this
      ensures r == Available(platform, f) && entries == Probe(old(entries), platform, f)
    {
      match platform {
        case AlwaysAvailable =>
          r := true;
        case Probed =>
          if f.probeSet {
            return false;
          }
          entries := entries[PROBE := Garbage];
          if !f.probeDelete {
            entries := entries - {PROBE};
            assert entries == old(entries) - {PROBE};
          }
          r := true;
        case Unsupported =>
          r := false;
      }
    }

    method Save(name: string, creds: Option<Creds>, f: Faults) returns (ok: bool)
      modifies this
      ensures ok == !f.write
      ensures entries == if ok then old(entries)[name := Saved(if creds.Some? then creds.value else NO_CREDS)] else old(entries)
    {
      if f.write {
        return false;
      }
      entries := entries[name := Saved(if creds.Some? then creds.value else NO_CREDS)];
      ok := true;
    }

    /** Saving after the availability probe. */
    method TrySave(name: string, creds: Option<Creds>, f: Faults) returns (ok: bool)
      modifies this
      ensures ok == (Available(platform, f) && !f.write)
      ensures var probed := Probe(old(entries), platform, f);
              entries == if ok then probed[name := Saved(if creds.Some? then creds.value else NO_CREDS)] else probed
    {
      ok := IsAvailable(f);
      if ok {
        ok := Save(name, creds, f);
      }
    }

    /** Reads an entry; a missing one is no error, an unreadable one is. */
    method Load(name: string, f: Faults) returns (ok: bool, creds: Option<Creds>)
      ensures ok == (!f.read && (name in entries ==> entries[name].Saved?))
      ensures ok ==> creds == if name in entries then Some(entries[name].creds) else None
    {
      creds := None;
      if f.read {
        return false, None;
      }
      if name !in entries {
        return true, None;
      }
      if entries[name].Garbage? {
        return false, None;
      }
      ok, creds := true, Some(entries[name].creds);
    }

    method Delete(name: string, f: Faults) returns (ok: bool)
      modifies this
      ensures ok == !f.erase && entries == if ok then old(entries) - {name} else old(entries)
    {
      if f.erase {
        return false;
      }
      entries := entries - {name};
      ok := true;
    }
  }

  class CredentialManager {
    const config: Config
    const keychain: KeychainStore

    constructor (config: Config, keychain: KeychainStore)
      ensures this.config == config && this.keychain == keychain
    {
      this.config, this.keychain := config, keychain;
    }

    ghost function Snapshot(): State
      reads config, config.profiles.Values, keychain
    {
      State(config.Snapshot(), config.currentProfile, keychain.entries)
    }

    /** `own` tells that the credentials returned are the profile's own, not a copy from the keychain. */
    method GetCredentials(name: string, f: Faults) returns (r: Lookup, own: bool)
      ensures r == Get(Snapshot(), name, f)
      ensures own <==> r.Found? && !InKeychain(Snapshot(), name)
    {
      own := false;
      var profile := config.GetProfile(name);
      if profile == null {
        return NoProfile, false;
      }
      if profile.credentialStore == KEYCHAIN {
        var ok, creds := keychain.Load(name, f);
        if !ok {
          return Broken, false;
        }
        if creds.Some? {
          return Found(creds.value), false;
        }
      }
      own := profile.credentials.Some?;
      r := if own then Found(profile.credentials.value) else Nothing;
    }

    method SaveCredentials(name: string, creds: Option<Creds>, useKeychain: bool, f: Faults) returns (ok: bool)
      requires config.Valid()
      modifies config.profiles.Values, keychain
      ensures ok <==> !SaveFails(old(Snapshot()), name, useKeychain, keychain.platform, f)
      ensures Snapshot() == CredentialStores.Save(old(Snapshot()), name, creds, useKeychain, keychain.platform, f)
    {
      hide Probe, Available;
      var profile := config.GetProfile(name);
      if profile == null {
        return false;
      }
      if useKeychain {
        var saved := keychain.TrySave(name, creds, f);
        if !saved {
          return false;
        }
        config.Assign(profile, KEYCHAIN, None);
      } else {
        config.Assign(profile, FILE, creds);
      }
      ok := true;
    }

    method DeleteCredentials(name: string, f: Faults) returns (ok: bool)
      requires config.Valid()
      modifies config.profiles.Values, keychain
      ensures ok <==> !DeleteFails(old(Snapshot()), name, f)
      ensures Snapshot() == CredentialStores.Delete(old(Snapshot()), name, f)
    {
      var profile := config.GetProfile(name);
      if profile == null {
        return false;
      }
      if profile.credentialStore == KEYCHAIN {
        var deleted := keychain.Delete(name, f);
        if !deleted {
          return false;
        }
      }
      config.Assign(profile, profile.credentialStore, None);
      ok := true;
    }
  }
}
