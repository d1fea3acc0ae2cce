/** `ETS2ModManager`: the object that holds the mod list, the profiles found
    and the selected profile, and whose methods scan, select and install. The
    listings of the profile locations, the typed answers and the outcome of the
    file operations are parameters. */
module Manager {
  import opened Text
  import opened Wrappers
  import opened SiiDecode
  import opened Profiles
  import opened SiiDocument
  import opened Scan
  import opened Prompts
  import opened Install

  /** The files of the machine, as far as the install step sees them. */
  class FileStore {
    var files: Files

    constructor(files: Files)
      ensures this.files == files
    {
      this.files := files;
    }
  }

  /** How one pass through `select_profile` ends: no profile to offer, the user
      cancelled with 0, the answer was not a listed number (the prompt is
      repeated), a profile was chosen but not confirmed, or chosen and
      confirmed. */
  datatype SelectOutcome = NoProfiles | Cancelled | AskAgain | Declined | Accepted

  function SelectionOutcome(selection: Selection, confirmation: string): SelectOutcome {
    match selection
    case Cancel => Cancelled
    case OutOfRange => AskAgain
    case NotANumber => AskAgain
    case Chosen(_) => if Confirmed(confirmation) then Accepted else Declined
  }

  /** Only a listed number followed by a yes accepts. */
  lemma AcceptedNeedsBoth(selection: Selection, confirmation: string)
    ensures SelectionOutcome(selection, confirmation) == Accepted <==> selection.Chosen? && Confirmed(confirmation)
  {
  }

  /** Whether `run` reaches the install step: there are mods, a profile is
      offered and chosen by number, and both the selection and the final
      confirmation are answered yes. */
  predicate Proceeds(mods: seq<string>, profiles: seq<Profile>, choiceLine: string, confirmLine: string,
                     finalLine: string) {
    mods != [] && profiles != [] && CheckSelection(choiceLine, |profiles|).Chosen?
    && Confirmed(confirmLine) && Confirmed(finalLine)
  }

  /** One more listing entry extends a location's profiles by what that entry
      yields. */
  lemma LocationProfilesSnoc(location: string, dirs: seq<ProfileDir>, i: nat, now: int)
    requires i < |dirs|
    ensures LocationProfiles(location, dirs[..i + 1], now)
         == LocationProfiles(location, dirs[..i], now)
          + (if EntryResult(location, dirs[i], now).Some? then [EntryResult(location, dirs[i], now).value] else [])
  {
    assert dirs[..i + 1][..i] == dirs[..i];
  }

  class ModManager {
    var modList: seq<string>
    var profiles: seq<Profile>
    var selected: Option<Profile>

    /** The mod list comes from `load_order.json`; nothing is scanned yet. */
    constructor(modList: seq<string>)
      ensures this.modList == modList && profiles == [] && selected == None
    {
      this.modList := modList;
      profiles := [];
      selected := None;
    }

    /** `_scan_location`: appends the profiles of one location's listing. */
    method ScanLocation(location: string, dirs: seq<ProfileDir>, now: int)
      modifies this
      ensures profiles == old(profiles) + LocationProfiles(location, dirs, now)
      ensures modList == old(modList) && selected == old(selected)
    {
      var storageType := StorageType(location);
      for i := 0 to |dirs|
        invariant profiles == old(profiles) + LocationProfiles(location, dirs[..i], now)
        invariant modList == old(modList) && selected == old(selected)
      {
        LocationProfilesSnoc(location, dirs, i, now);
        var dir := dirs[i];
        if IsBackupFolder(dir.folderName) {
          continue;
        }
        var profilePath := JoinPath(location, dir.folderName);
        if dir.isDirectory {
          var profile := ReadProfile(profilePath, dir, storageType, now);
          if profile.Some? {
            profiles := profiles + [profile.value];
          }
        }
      }
      assert dirs[..|dirs|] == dirs;
    }

    /** `scan_profiles`: the fixed locations and then the Steam Cloud ones,
        each scanned when it exists, and the result ordered by mod count. */
    method ScanProfiles(user: string, steamLocations: seq<string>, disk: map<string, seq<ProfileDir>>, now: int)
      modifies this
      ensures profiles == SortByMods(FoundProfiles(ScanLocations(user, steamLocations), disk, now))
      ensures SortedByMods(profiles)
      ensures multiset(profiles) == multiset(FoundProfiles(ScanLocations(user, steamLocations), disk, now))
      ensures modList == old(modList) && selected == old(selected)
    {
      profiles := [];
      var locations := ScanLocations(user, steamLocations);
      for i := 0 to |locations|
        invariant profiles == FoundProfiles(locations[..i], disk, now)
        invariant modList == old(modList) && selected == old(selected)
      {
        FoundProfilesSnoc(locations, disk, now, i);
        var location := locations[i];
        if location in disk {
          ScanLocation(location, disk[location], now);
        }
      }
      assert locations[..|locations|] == locations;
      SortByModsSorted(profiles);
      profiles := SortByMods(profiles);
    }

    /** One pass through `select_profile`: scan when nothing has been scanned,
        check the typed choice, remember the chosen profile and ask for the
        confirmation. */
    method SelectProfile(user: string, steamLocations: seq<string>, disk: map<string, seq<ProfileDir>>, now: int,
                         choiceLine: string, confirmLine: string)
      returns (outcome: SelectOutcome)
      modifies this
      ensures old(profiles) != [] ==> profiles == old(profiles)
      ensures old(profiles) == [] ==> profiles == SortByMods(FoundProfiles(ScanLocations(user, steamLocations), disk, now))
      ensures outcome == (if profiles == [] then NoProfiles
                          else SelectionOutcome(CheckSelection(choiceLine, |profiles|), confirmLine))
      ensures profiles != [] && CheckSelection(choiceLine, |profiles|).Chosen? ==>
                CheckSelection(choiceLine, |profiles|).index < |profiles|
                && selected == Some(profiles[CheckSelection(choiceLine, |profiles|).index])
      ensures (profiles == [] || !CheckSelection(choiceLine, |profiles|).Chosen?) ==> selected == old(selected)
      ensures outcome == Accepted ==> selected.Some? && selected.value in profiles && Confirmed(confirmLine)
      ensures modList == old(modList)
    {
      if profiles == [] {
        ScanProfiles(user, steamLocations, disk, now);
      }
      if profiles == [] {
        return NoProfiles;
      }
      var selection := CheckSelection(choiceLine, |profiles|);
      SelectionSound(choiceLine, |profiles|);
      match selection
      case Cancel =>
        outcome := Cancelled;
      case OutOfRange =>
        outcome := AskAgain;
      case NotANumber =>
        outcome := AskAgain;
      case Chosen(index) =>
        selected := Some(profiles[index]);
        outcome := if Confirmed(confirmLine) then Accepted else Declined;
    }

    /** `install_mods`: nothing happens without a selected profile; otherwise
        the backup and the overwrite of its `profile.sii` with the document
        built from the mod list. */
    method InstallMods(store: FileStore, copyFails: bool, writeFails: bool) returns (ok: bool)
      modifies store
      ensures selected.None? ==> !ok && store.files == old(store.files)
      ensures selected.Some? ==>
                InstallResult(ok, store.files)
                == InstallOutcome(old(store.files), ProfileFile(selected.value.path),
                                  Utf8Encode(Document(selected.value.name, modList)), copyFails, writeFails)
    {
      if selected.None? {
        return false;
      }
      var target := ProfileFile(selected.value.path);
      var backup := BackupFile(target);
      if target in store.files {
        if copyFails {
          return false;
        }
        store.files := store.files[backup := store.files[target]];
      }
      var document := BuildDocument(selected.value.name, modList);
      if writeFails {
        return false;
      }
      store.files := store.files[target := Utf8Encode(document)];
      ok := true;
    }

    /** `run`: with mods to install, a profile accepted at the prompt and a
        final yes, the install step runs. The selection pass leaves the
        profiles and the selected profile as `SelectProfile` does; the files
        change only through the install, and a successful install leaves the
        chosen profile's `profile.sii` holding the generated document. */
    method Run(user: string, steamLocations: seq<string>, disk: map<string, seq<ProfileDir>>, now: int,
               choiceLine: string, confirmLine: string, finalLine: string,
               store: FileStore, copyFails: bool, writeFails: bool)
      returns (installed: bool)
      modifies this, store
      ensures modList == old(modList)
      ensures old(modList) == [] ==> profiles == old(profiles) && selected == old(selected)
      ensures old(modList) != [] && old(profiles) != [] ==> profiles == old(profiles)
      ensures old(modList) != [] && old(profiles) == [] ==>
                profiles == SortByMods(FoundProfiles(ScanLocations(user, steamLocations), disk, now))
      ensures modList != [] && profiles != [] && CheckSelection(choiceLine, |profiles|).Chosen? ==>
                CheckSelection(choiceLine, |profiles|).index < |profiles|
                && selected == Some(profiles[CheckSelection(choiceLine, |profiles|).index])
      ensures !(modList != [] && profiles != [] && CheckSelection(choiceLine, |profiles|).Chosen?) ==>
                selected == old(selected)
      ensures Proceeds(modList, profiles, choiceLine, confirmLine, finalLine) ==>
                selected.Some? && selected.value in profiles
                && InstallResult(installed, store.files)
                   == InstallOutcome(old(store.files), ProfileFile(selected.value.path),
                                     Utf8Encode(Document(selected.value.name, modList)), copyFails, writeFails)
      ensures !Proceeds(modList, profiles, choiceLine, confirmLine, finalLine) ==>
                !installed && store.files == old(store.files)
      ensures installed <==>
                Proceeds(modList, profiles, choiceLine, confirmLine, finalLine) && selected.Some?
                && !writeFails && !(ProfileFile(selected.value.path) in old(store.files) && copyFails)
      ensures installed ==>
                ProfileFile(selected.value.path) in store.files
                && store.files[ProfileFile(selected.value.path)] == Utf8Encode(Document(selected.value.name, modList))
    {
      installed := false;
      if modList == [] {
        return;
      }
      var outcome := SelectProfile(user, steamLocations, disk, now, choiceLine, confirmLine);
      if profiles != [] {
        AcceptedNeedsBoth(CheckSelection(choiceLine, |profiles|), confirmLine);
      }
      if outcome == Accepted && Confirmed(finalLine) {
        ghost var before := store.files;
        installed := InstallMods(store, copyFails, writeFails);
        InstallSucceeds(before, ProfileFile(selected.value.path),
                        Utf8Encode(Document(selected.value.name, modList)), copyFails, writeFails);
      }
    }
  }
}
