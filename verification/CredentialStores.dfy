/** Profiles, the keychain and the credential manager over both, as values: what each operation
    does to the stores, and the plain map from profile to credentials that they refine. */
module CredentialStores {
  import opened Options

  datatype Creds = Creds(access: string, refresh: string, expiresAt: int, apiKey: string)

  const NO_CREDS := Creds("", "", 0, "")

  /** A keychain entry holds credentials, or text that is not credentials. */
  datatype Entry = Saved(creds: Creds) | Garbage

  datatype ProfileState = ProfileState(store: string, file: Option<Creds>)

  datatype State = State(profiles: map<string, ProfileState>, current: string, keychain: map<string, Entry>)

  const KEYCHAIN := "keychain"
  const FILE := "file"
  const PROBE := "__test__"

  datatype Platform = AlwaysAvailable | Probed | Unsupported

  /** Which of the keychain operations of one call fail. */
  datatype Faults = Faults(probeSet: bool, probeDelete: bool, write: bool, read: bool, erase: bool)

  datatype Lookup = NoProfile | Broken | Nothing | Found(creds: Creds)

  function Resolve(s: State, name: string): string {
    if name == "" then s.current else name
  }

  /** The profile that a name stands for exists. */
  predicate Known(s: State, name: string) {
    Resolve(s, name) != "" && Resolve(s, name) in s.profiles
  }

  // ---------- The operations on both stores ----------

  function Get(s: State, name: string, f: Faults): Lookup {
    if !Known(s, name) then NoProfile
    else
      var p := s.profiles[Resolve(s, name)];
      if p.store == KEYCHAIN && f.read then Broken
      else if p.store == KEYCHAIN && name in s.keychain then
        (if s.keychain[name].Saved? then Found(s.keychain[name].creds) else Broken)
      else if p.file.Some? then Found(p.file.value)
      else Nothing
  }

  /** A lookup of this name reads a keychain entry. */
  predicate InKeychain(s: State, name: string) {
    Known(s, name) && s.profiles[Resolve(s, name)].store == KEYCHAIN && name in s.keychain
  }

  /** Probing the keychain writes and deletes an entry of its own. */
  function Probe(keychain: map<string, Entry>, platform: Platform, f: Faults): map<string, Entry> {
    if !platform.Probed? || f.probeSet then keychain
    else if f.probeDelete then keychain[PROBE := Garbage]
    else keychain - {PROBE}
  }

  predicate Available(platform: Platform, f: Faults) {
    platform.AlwaysAvailable? || (platform.Probed? && !f.probeSet)
  }

  predicate SaveFails(s: State, name: string, useKeychain: bool, platform: Platform, f: Faults) {
    !Known(s, name) || (useKeychain && (!Available(platform, f) || f.write))
  }

  /** Missing credentials are written to the keychain as empty ones. */
  function Save(s: State, name: string, creds: Option<Creds>, useKeychain: bool, platform: Platform, f: Faults): State {
    if !Known(s, name) then s
    else if !useKeychain then
      s.(profiles := s.profiles[Resolve(s, name) := ProfileState(FILE, creds)])
    else
      var probed := s.(keychain := Probe(s.keychain, platform, f));
      if SaveFails(s, name, useKeychain, platform, f) then probed
      else probed.(profiles := s.profiles[Resolve(s, name) := ProfileState(KEYCHAIN, None)],
                   keychain := probed.keychain[name := Saved(if creds.Some? then creds.value else NO_CREDS)])
  }

  predicate DeleteFails(s: State, name: string, f: Faults) {
    !Known(s, name) || (s.profiles[Resolve(s, name)].store == KEYCHAIN && f.erase)
  }

  function Delete(s: State, name: string, f: Faults): State {
    if DeleteFails(s, name, f) then s
    else
      var p := s.profiles[Resolve(s, name)];
      s.(profiles := s.profiles[Resolve(s, name) := p.(file := None)],
         keychain := if p.store == KEYCHAIN then s.keychain - {name} else s.keychain)
  }

  function SetProfile(s: State, name: string, p: ProfileState): State {
    s.(profiles := s.profiles[name := p])
  }

  /** Removing a profile: a new current profile is picked only if the current one went. */
  ghost predicate Removes(s: State, name: string, s': State) {
    && name in s.profiles && s'.profiles == s.profiles - {name} && s'.keychain == s.keychain
    && if s.current != name then s'.current == s.current
       else if s'.profiles == map[] then s'.current == "" else s'.current in s'.profiles
  }

  ghost predicate CurrentKnown(s: State) {
    s.current == "" || s.current in s.profiles
  }

  // ---------- The map they refine ----------

  const NO_FAULTS := Faults(false, false, false, false, false)

  /** What a lookup would find for each profile while the keychain answers. */
  function Abstract(s: State): map<string, Lookup> {
    map n | n in s.profiles :: Get(s, n, NO_FAULTS)
  }

  ghost predicate ProperName(name: string) {
    name != "" && name != PROBE
  }

  lemma GetIsAbstract(s: State, name: string, f: Faults)
    requires name != ""
    ensures Get(s, name, f) ==
            if name !in s.profiles then NoProfile
            else if s.profiles[name].store == KEYCHAIN && f.read then Broken
            else Abstract(s)[name]
  {
  }

  /** The same entries for every profile but the named one and the one that shares the probe's name. */
  ghost predicate SameElsewhere(s: State, s': State, name: string) {
    forall n :: ProperName(n) && n != name ==>
      (n in s'.profiles <==> n in s.profiles) && (n in s.profiles ==> Abstract(s')[n] == Abstract(s)[n])
  }

  lemma SaveElsewhere(s: State, name: string, creds: Option<Creds>, useKeychain: bool, platform: Platform, f: Faults)
    requires ProperName(name)
    ensures SameElsewhere(s, Save(s, name, creds, useKeychain, platform, f), name)
    ensures Save(s, name, creds, useKeychain, platform, f).current == s.current
  {
    var s' := Save(s, name, creds, useKeychain, platform, f);
    forall n | ProperName(n) && n != name
      ensures n in s'.profiles <==> n in s.profiles
      ensures n in s.profiles ==> s'.profiles[n] == s.profiles[n]
      ensures n in s'.keychain <==> n in s.keychain
      ensures n in s.keychain ==> s'.keychain[n] == s.keychain[n]
    {
    }
  }

  lemma SaveFailed(s: State, name: string, creds: Option<Creds>, useKeychain: bool, platform: Platform, f: Faults)
    requires ProperName(name) && SaveFails(s, name, useKeychain, platform, f)
    ensures var s' := Save(s, name, creds, useKeychain, platform, f);
            s'.profiles == s.profiles && (name in s.profiles ==> Abstract(s')[name] == Abstract(s)[name])
  {
  }

  lemma SaveReadsBack(s: State, name: string, creds: Option<Creds>, useKeychain: bool, platform: Platform, f: Faults)
    requires ProperName(name) && !SaveFails(s, name, useKeychain, platform, f)
    ensures var s' := Save(s, name, creds, useKeychain, platform, f);
            && name in s'.profiles && s'.profiles[name].store == (if useKeychain then KEYCHAIN else FILE)
            && Abstract(s')[name] == if useKeychain then Found(if creds.Some? then creds.value else NO_CREDS)
                                     else if creds.Some? then Found(creds.value) else Nothing
  {
    assert |KEYCHAIN| != |FILE|;
  }

  /** A successful save is an update of the map at that name, and a failed one changes nothing.
      What is read back is what was saved, except that missing credentials come back from the
      keychain as empty ones. */
  lemma SaveRefines(s: State, name: string, creds: Option<Creds>, useKeychain: bool, platform: Platform, f: Faults)
    requires ProperName(name)
    ensures var s' := Save(s, name, creds, useKeychain, platform, f);
            && SameElsewhere(s, s', name) && s'.current == s.current
            && (if SaveFails(s, name, useKeychain, platform, f)
                then s'.profiles == s.profiles && (name in s.profiles ==> Abstract(s')[name] == Abstract(s)[name])
                else
                  && name in s'.profiles && s'.profiles[name].store == (if useKeychain then KEYCHAIN else FILE)
                  && var wanted := if creds.Some? then Found(creds.value) else Nothing;
                     (Abstract(s')[name] == wanted <==> !(useKeychain && creds.None?)))
  {
    SaveElsewhere(s, name, creds, useKeychain, platform, f);
    hide SameElsewhere;
    if SaveFails(s, name, useKeychain, platform, f) {
      SaveFailed(s, name, creds, useKeychain, platform, f);
    } else {
      SaveReadsBack(s, name, creds, useKeychain, platform, f);
    }
  }

  /** After a successful delete nothing is found, even if the keychain still has an old entry. */
  lemma DeleteRefines(s: State, name: string, f: Faults)
    requires ProperName(name)
    ensures var s' := Delete(s, name, f);
            && SameElsewhere(s, s', name)
            && if DeleteFails(s, name, f) then s' == s else name in s'.profiles && Abstract(s')[name] == Nothing
  {
  }

  lemma RemoveRefines(s: State, name: string, s': State)
    requires Removes(s, name, s')
    ensures name !in s'.profiles
    ensures forall n :: n != name ==> (n in s'.profiles <==> n in s.profiles) && (n in s.profiles && n != "" ==> Abstract(s')[n] == Abstract(s)[n])
    ensures CurrentKnown(s) ==> CurrentKnown(s')
  {
  }

  /** Installing a profile puts its own file credentials in the map exactly when it does not point
      at a keychain entry that says otherwise. */
  lemma SetProfileRefines(s: State, name: string, p: ProfileState)
    requires ProperName(name)
    ensures var s' := SetProfile(s, name, p);
            && SameElsewhere(s, s', name) && (CurrentKnown(s) ==> CurrentKnown(s'))
            && var own := if p.file.Some? then Found(p.file.value) else Nothing;
               (Abstract(s')[name] == own <==>
                p.store != KEYCHAIN || name !in s.keychain || (s.keychain[name].Saved? && Found(s.keychain[name].creds) == own))
  {
  }

  /** When a save fails: the profile is unknown, or the keychain is wanted and its platform has none,
      the probe fails or the write fails.  Then no lookup changes. */
  lemma SaveFailsExactly(s: State, name: string, creds: Option<Creds>, useKeychain: bool, platform: Platform, f: Faults, n: string, g: Faults)
    requires ProperName(name) && ProperName(n)
    ensures var failed := name !in s.profiles || (useKeychain && (f.write || platform.Unsupported? || (platform.Probed? && f.probeSet)));
            && (SaveFails(s, name, useKeychain, platform, f) <==> failed)
            && (failed ==> Get(Save(s, name, creds, useKeychain, platform, f), n, g) == Get(s, n, g))
  {
  }

  /** A delete fails for an unknown profile or a keychain that does not erase, and changes nothing
      then.  One that succeeds leaves the credentials in neither store the profile uses. */
  lemma DeleteErases(s: State, name: string, f: Faults)
    requires ProperName(name)
    ensures var s' := Delete(s, name, f);
            if name !in s.profiles || (s.profiles[name].store == KEYCHAIN && f.erase) then DeleteFails(s, name, f) && s' == s
            else
              && !DeleteFails(s, name, f) && s'.profiles[name].file == None && s'.profiles[name].store == s.profiles[name].store
              && (s.profiles[name].store == KEYCHAIN ==> name !in s'.keychain)
  {
  }

  /** The probe touches its own entry only, and leaves it behind only when deleting it fails. */
  lemma ProbeLeaves(keychain: map<string, Entry>, platform: Platform, f: Faults, n: string)
    ensures var probed := Probe(keychain, platform, f);
            && (n != "__test__" ==> (n in probed <==> n in keychain) && (n in keychain ==> probed[n] == keychain[n]))
            && ("__test__" in probed <==>
                  if platform.Probed? && !f.probeSet then f.probeDelete else "__test__" in keychain)
  {
  }

  /** The empty name stands for the current profile, except that a keychain profile's entry is looked
      up under the empty name too. */
  lemma EmptyNameIsCurrent(s: State, f: Faults)
    requires s.current != ""
    ensures s.current in s.profiles && (s.profiles[s.current].store != "keychain" || ("" !in s.keychain && s.current !in s.keychain)) ==>
              Get(s, "", f) == Get(s, s.current, f)
    ensures s.current !in s.profiles ==> Get(s, "", f) == NoProfile
  {
  }

  // ---------- Runs ----------

  datatype Op =
    | OpSet(name: string, profile: ProfileState)
    | OpSave(name: string, creds: Option<Creds>, useKeychain: bool, platform: Platform, faults: Faults)
    | OpDelete(name: string, faults: Faults)
    | OpRemove(name: string)

  ghost predicate Performs(s: State, op: Op, s': State) {
    match op
    case OpSet(name, p) => ProperName(name) && s' == SetProfile(s, name, p)
    case OpSave(name, creds, useKeychain, platform, f) => ProperName(name) && s' == Save(s, name, creds, useKeychain, platform, f)
    case OpDelete(name, f) => ProperName(name) && s' == Delete(s, name, f)
    case OpRemove(name) => Removes(s, name, s')
  }

  /** What the plain map does under the same operation. */
  ghost predicate MapPerforms(s: State, m: map<string, Option<Creds>>, op: Op, m': map<string, Option<Creds>>) {
    match op
    case OpSet(name, p) => m' == m[name := p.file]
    case OpSave(name, creds, useKeychain, platform, f) =>
      m' == if SaveFails(s, name, useKeychain, platform, f) then m else m[name := creds]
    case OpDelete(name, f) => m' == if DeleteFails(s, name, f) then m else m[name := None]
    case OpRemove(name) => m' == m - {name}
  }

  /** The operation neither points a profile at a keychain entry that says otherwise, nor saves
      missing credentials to the keychain. */
  predicate Faithful(s: State, op: Op) {
    match op
    case OpSet(name, p) =>
      p.store != KEYCHAIN || name !in s.keychain || (s.keychain[name].Saved? && p.file == Some(s.keychain[name].creds))
    case OpSave(name, creds, useKeychain, platform, f) => SaveFails(s, name, useKeychain, platform, f) || !useKeychain || creds.Some?
    case _ => true
  }

  /** The stores represent the plain map: a profile found in the keychain has its credentials there,
      and one kept in the file has them there, whatever the keychain still contains. */
  ghost predicate Represents(s: State, m: map<string, Option<Creds>>) {
    && s.profiles.Keys == m.Keys
    && forall n :: n in s.profiles ==> ProperName(n) && Abstract(s)[n] == AsLookup(m[n])
  }

  function AsLookup(creds: Option<Creds>): Lookup {
    if creds.Some? then Found(creds.value) else Nothing
  }

  /** When one profile's entry is replaced, the representation is kept exactly when that entry is right. */
  lemma EntryReplaced(s: State, m: map<string, Option<Creds>>, name: string, creds: Option<Creds>, s': State)
    requires Represents(s, m) && ProperName(name) && SameElsewhere(s, s', name) && s'.profiles.Keys == s.profiles.Keys + {name}
    ensures Represents(s', m[name := creds]) <==> Abstract(s')[name] == AsLookup(creds)
  {
    hide Get;
  }

  /** One operation on the stores is the same operation on the plain map exactly when it is faithful. */
  lemma StepRefines(s: State, m: map<string, Option<Creds>>, op: Op, s': State, m': map<string, Option<Creds>>)
    requires Represents(s, m) && Performs(s, op, s') && MapPerforms(s, m, op, m')
    ensures Represents(s', m') <==> Faithful(s, op)
  {
    hide Abstract, Save, Delete, SaveFails, DeleteFails, SetProfile;
    match op
    case OpSet(name, p) =>
      SetProfileRefines(s, name, p);
      SetKnown(s, name, p);
      EntryReplaced(s, m, name, p.file, s');
    case OpSave(name, creds, useKeychain, platform, f) =>
      SaveRefines(s, name, creds, useKeychain, platform, f);
      SaveKnown(s, name, creds, useKeychain, platform, f);
      if !SaveFails(s, name, useKeychain, platform, f) {
        assert s.profiles.Keys + {name} == s.profiles.Keys;
        EntryReplaced(s, m, name, creds, s');
      }
    case OpDelete(name, f) =>
      DeleteRefines(s, name, f);
      DeleteKnown(s, name, f);
    case OpRemove(name) => RemoveRefines(s, name, s');
  }

  lemma SetKnown(s: State, name: string, p: ProfileState)
    ensures SetProfile(s, name, p).profiles.Keys == s.profiles.Keys + {name}
  {
  }

  lemma SaveKnown(s: State, name: string, creds: Option<Creds>, useKeychain: bool, platform: Platform, f: Faults)
    requires name != ""
    ensures Save(s, name, creds, useKeychain, platform, f).profiles.Keys == s.profiles.Keys
    ensures !SaveFails(s, name, useKeychain, platform, f) ==> name in s.profiles
  {
  }

  lemma DeleteKnown(s: State, name: string, f: Faults)
    requires name != ""
    ensures Delete(s, name, f).profiles.Keys == s.profiles.Keys
    ensures !DeleteFails(s, name, f) ==> name in s.profiles
  {
  }

  ghost predicate StoreRun(ops: seq<Op>, states: seq<State>) {
    |states| == |ops| + 1 && forall i :: 0 <= i < |ops| ==> Performs(states[i], ops[i], states[i + 1])
  }

  ghost predicate MapRun(ops: seq<Op>, states: seq<State>, maps: seq<map<string, Option<Creds>>>)
    requires |states| == |ops| + 1
  {
    |maps| == |ops| + 1 && forall i :: 0 <= i < |ops| ==> MapPerforms(states[i], maps[i], ops[i], maps[i + 1])
  }

  /** Over every run of profile installation, save, delete and removal: the stores behave as the plain
      map throughout exactly when every operation is faithful.  In particular an entry that a switch
      to the file left behind in the keychain is not returned. */
  lemma {:induction false} RunRefines(ops: seq<Op>, states: seq<State>, maps: seq<map<string, Option<Creds>>>, n: nat)
    requires StoreRun(ops, states) && MapRun(ops, states, maps) && n <= |ops|
    requires Represents(states[0], maps[0])
    ensures (forall i :: 0 <= i <= n ==> Represents(states[i], maps[i])) <==> (forall i :: 0 <= i < n ==> Faithful(states[i], ops[i]))
  {
    hide Represents, Faithful, Performs, MapPerforms;
    if n > 0 {
      RunRefines(ops, states, maps, n - 1);
      if Represents(states[n - 1], maps[n - 1]) {
        StepRefines(states[n - 1], maps[n - 1], ops[n - 1], states[n], maps[n]);
      }
    }
  }

  /** Credentials saved to the keychain, replaced by others in the file, come back when the profile is
      installed again as a keychain profile without credentials. */
  lemma StaleEntryReturns(stale: Creds, current: Creds)
    ensures var s0 := State(map["a" := ProfileState(FILE, None)], "a", map[]);
            var s1 := Save(s0, "a", Some(stale), true, AlwaysAvailable, NO_FAULTS);
            var s2 := Save(s1, "a", Some(current), false, AlwaysAvailable, NO_FAULTS);
            var s3 := SetProfile(s2, "a", ProfileState(KEYCHAIN, None));
            && Get(s2, "a", NO_FAULTS) == Found(current)
            && Get(s3, "a", NO_FAULTS) == Found(stale)
            && !Faithful(s2, OpSet("a", ProfileState(KEYCHAIN, None)))
  {
    assert |KEYCHAIN| != |FILE|;
  }
}
