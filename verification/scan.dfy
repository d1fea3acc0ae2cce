/** The profile scan rules: where profiles are looked for, the storage type
    derived from a location's path, the exclusion of backup folders, which
    directories of a listing yield a profile, and the ordering of the profile
    list by mod count. */
module Scan {
  import opened Text
  import opened Wrappers
  import opened Profiles

  // ---------------------------------------------------------------------------
  // Paths

  /** `os.path.join(directory, name)` with Windows separators, for a name that
      is a single path component: a backslash is added unless the directory is
      empty or already ends with a separator. */
  function JoinPath(directory: string, name: string): (path: string)
    ensures |path| >= |name| && StartsWith(path, directory)
    ensures path[|path| - |name|..] == name
  {
    if directory == [] || directory[|directory| - 1] == '/' || directory[|directory| - 1] == '\\' then
      directory + name
    else
      directory + "\\" + name
  }

  const GameFolder := "/Euro Truck Simulator 2/profiles"
  const LocalTail := "/Documents" + GameFolder
  const OneDriveTail := "/OneDrive/Documents" + GameFolder
  const OneDriveSpanishTail := "/OneDrive/Documentos" + GameFolder

  function UserHome(user: string): string {
    "C:/Users/" + user
  }

  /** The three fixed profile locations under the user's home folder. */
  function DefaultLocations(user: string): seq<string> {
    [UserHome(user) + LocalTail, UserHome(user) + OneDriveTail, UserHome(user) + OneDriveSpanishTail]
  }

  /** The fixed locations first, then the Steam Cloud locations. */
  function ScanLocations(user: string, steamLocations: seq<string>): seq<string> {
    DefaultLocations(user) + steamLocations
  }

  // ---------------------------------------------------------------------------
  // Storage type and exclusion

  const SteamMarker := "userdata"
  const OneDriveMarker := "OneDrive"

  function StorageType(path: string): string {
    if Contains(path, SteamMarker) then "Steam Cloud"
    else if Contains(path, OneDriveMarker) then "OneDrive"
    else "Local"
  }

  /** Each storage type is named exactly when its test is the first to pass. */
  lemma StorageTypeCases(path: string)
    ensures StorageType(path) == "Steam Cloud" <==> Contains(path, SteamMarker)
    ensures StorageType(path) == "OneDrive" <==> !Contains(path, SteamMarker) && Contains(path, OneDriveMarker)
    ensures StorageType(path) == "Local" <==> !Contains(path, SteamMarker) && !Contains(path, OneDriveMarker)
  {
  }

  /** The home folder mentions a marker only when the user name does. */
  lemma {:induction false} UserHomeClean(user: string, marker: string)
    requires marker == SteamMarker || marker == OneDriveMarker
    requires !Contains(user, marker)
    ensures !Contains(UserHome(user), marker)
  {
    if marker == SteamMarker {
      NotContainsByChar("C:/Users/", marker, 'd');
    } else {
      NotContainsByChar("C:/Users/", marker, 'v');
    }
    NotContainsJoin("C:/Users/", user, marker, '/');
  }

  /** The fixed tails: the local one names neither marker; the OneDrive ones
      name OneDrive right after their leading slash, and not userdata. */
  lemma TailFacts()
    ensures 'd' !in LocalTail && 'v' !in LocalTail
    ensures 'd' !in OneDriveTail && OneDriveTail[0] == '/' && |OneDriveTail| >= 9
    ensures 'd' !in OneDriveSpanishTail && OneDriveSpanishTail[0] == '/' && |OneDriveSpanishTail| >= 9
    ensures OneDriveTail[1..9] == OneDriveMarker && OneDriveSpanishTail[1..9] == OneDriveMarker
  {
    GameFolderLacks();
    assert 'd' !in "/Documents" && 'v' !in "/Documents";
    assert 'd' !in "/OneDrive/Documents" && 'd' !in "/OneDrive/Documentos";
    assert "/OneDrive/Documents"[1..9] == OneDriveMarker;
    assert "/OneDrive/Documentos"[1..9] == OneDriveMarker;
  }

  /** The game folder names neither marker's letters `d` and `v`. */
  lemma GameFolderLacks()
    ensures 'd' !in GameFolder && 'v' !in GameFolder
  {
  }

  /** For a user name that mentions neither marker, the first fixed location is
      local storage and the other two are OneDrive storage. */
  lemma {:induction false} DefaultLocationsStorage(user: string)
    requires !Contains(user, SteamMarker) && !Contains(user, OneDriveMarker)
    ensures StorageType(DefaultLocations(user)[0]) == "Local"
    ensures StorageType(DefaultLocations(user)[1]) == "OneDrive"
    ensures StorageType(DefaultLocations(user)[2]) == "OneDrive"
  {
    var home := UserHome(user);
    UserHomeClean(user, SteamMarker);
    UserHomeClean(user, OneDriveMarker);
    TailFacts();
    NotContainsByChar(LocalTail, SteamMarker, 'd');
    NotContainsByChar(LocalTail, OneDriveMarker, 'v');
    NotContainsJoin(home, LocalTail, SteamMarker, '/');
    NotContainsJoin(home, LocalTail, OneDriveMarker, '/');
    OneDriveLocation(home, OneDriveTail);
    OneDriveLocation(home, OneDriveSpanishTail);
  }

  /** A location whose fixed part names OneDrive but not userdata. */
  lemma {:induction false} OneDriveLocation(front: string, rest: string)
    requires !Contains(front, SteamMarker)
    requires 'd' !in rest && |rest| >= 9 && rest[0] == '/' && rest[1..9] == OneDriveMarker
    ensures StorageType(front + rest) == "OneDrive"
  {
    NotContainsByChar(rest, SteamMarker, 'd');
    NotContainsJoin(front, rest, SteamMarker, '/');
    assert (front + rest)[|front| + 1..|front| + 9] == rest[1..9];
    ContainsAt(front + rest, OneDriveMarker, |front| + 1);
  }

  /** Folders such as `name (2).bak` are the game's own backups and are skipped. */
  predicate IsBackupFolder(folderName: string) {
    Contains(folderName, "(") && Contains(folderName, ".bak")
  }

  /** The names the game gives its backup copies, `<name> (<n>).bak`, are skipped. */
  lemma {:induction false} BackupCopySkipped(name: string, copy: string)
    ensures IsBackupFolder(name + " (" + copy + ").bak")
  {
    var s := name + " (" + copy + ").bak";
    assert s[|name| + 1..|name| + 2] == "(";
    ContainsAt(s, "(", |name| + 1);
    assert s[|s| - 4..] == ".bak";
    ContainsAt(s, ".bak", |s| - 4);
  }

  /** A folder with only one of the two marks is kept. */
  lemma OneMarkKept()
    ensures !IsBackupFolder("old.bak")
    ensures !IsBackupFolder("Profile (1)")
  {
    NotContainsByChar("old.bak", "(", '(');
    NotContainsByChar("Profile (1)", ".bak", '.');
  }

  // ---------------------------------------------------------------------------
  // What a listing yields

  /** What `_scan_location` makes of one entry of a location's listing: nothing
      for a backup folder or a plain file, otherwise what `_read_profile` gives
      for it. */
  function EntryResult(location: string, dir: ProfileDir, now: int): Option<Profile> {
    if IsBackupFolder(dir.folderName) || !dir.isDirectory then None
    else ProfileSummary(JoinPath(location, dir.folderName), dir, StorageType(location), now)
  }

  /** The results that are present, in order: what a loop that appends each
      present result keeps. */
  function Present<A, B>(xs: seq<A>, f: A -> Option<B>): seq<B> {
    if xs == [] then []
    else
      var last := f(xs[|xs| - 1]);
      Present(xs[..|xs| - 1], f) + (if last.Some? then [last.value] else [])
  }

  /** A value is kept exactly when some element gives it. */
  lemma {:induction false} PresentExact<A, B>(xs: seq<A>, f: A -> Option<B>, y: B)
    ensures y in Present(xs, f) <==> exists i :: 0 <= i < |xs| && f(xs[i]) == Some(y)
  {
    if xs != [] {
      var init := xs[..|xs| - 1];
      PresentExact(init, f, y);
      if y in Present(xs, f) && y in Present(init, f) {
        var i :| 0 <= i < |init| && f(init[i]) == Some(y);
        assert xs[i] == init[i];
      }
      if exists i :: 0 <= i < |xs| && f(xs[i]) == Some(y) {
        var i :| 0 <= i < |xs| && f(xs[i]) == Some(y);
        if i < |init| {
          assert init[i] == xs[i];
        }
      }
    }
  }

  /** The profiles found in one location, in listing order. */
  function LocationProfiles(location: string, dirs: seq<ProfileDir>, now: int): seq<Profile> {
    Present(dirs, dir => EntryResult(location, dir, now))
  }

  /** The listed entry `dir` yields profile `p`. */
  predicate Yields(location: string, dir: ProfileDir, now: int, p: Profile) {
    EntryResult(location, dir, now) == Some(p)
  }

  /** A profile is found in a location exactly when some listed entry yields it. */
  lemma LocationProfilesExact(location: string, dirs: seq<ProfileDir>, now: int, p: Profile)
    ensures p in LocationProfiles(location, dirs, now) <==> exists i :: 0 <= i < |dirs| && Yields(location, dirs[i], now, p)
  {
    PresentExact(dirs, dir => EntryResult(location, dir, now), p);
  }

  /** An entry yields a profile only when it is a directory that is not a backup
      folder; the profile carries the location's storage type and the entry's
      path under the location. */
  lemma YieldsShape(location: string, dir: ProfileDir, now: int, p: Profile)
    requires Yields(location, dir, now, p)
    ensures dir.isDirectory && !IsBackupFolder(dir.folderName)
    ensures p.storageType == StorageType(location)
    ensures p.path == JoinPath(location, dir.folderName)
  {
  }

  /** Every profile found in a location carries that location's storage type. */
  lemma {:induction false} LocationStorageType(location: string, dirs: seq<ProfileDir>, now: int)
    ensures forall p :: p in LocationProfiles(location, dirs, now) ==> p.storageType == StorageType(location)
  {
    forall p | p in LocationProfiles(location, dirs, now)
      ensures p.storageType == StorageType(location)
    {
      LocationProfilesExact(location, dirs, now, p);
      var i :| 0 <= i < |dirs| && Yields(location, dirs[i], now, p);
      YieldsShape(location, dirs[i], now, p);
    }
  }

  /** The results of each element, concatenated in order. */
  function Gather<A, B>(xs: seq<A>, g: A -> seq<B>): seq<B> {
    if xs == [] then [] else Gather(xs[..|xs| - 1], g) + g(xs[|xs| - 1])
  }

  /** A value is gathered exactly when some element's results hold it. */
  lemma {:induction false} GatherExact<A, B>(xs: seq<A>, g: A -> seq<B>, y: B)
    ensures y in Gather(xs, g) <==> exists i :: 0 <= i < |xs| && y in g(xs[i])
  {
    if xs != [] {
      var init := xs[..|xs| - 1];
      GatherExact(init, g, y);
      if y in Gather(xs, g) && y in Gather(init, g) {
        var i :| 0 <= i < |init| && y in g(init[i]);
        assert xs[i] == init[i];
      }
      if exists i :: 0 <= i < |xs| && y in g(xs[i]) {
        var i :| 0 <= i < |xs| && y in g(xs[i]);
        if i < |init| {
          assert init[i] == xs[i];
        }
      }
    }
  }

  /** The profiles of one location when it exists; `disk` holds the listing of
      each location that exists. */
  function ExistingProfiles(disk: map<string, seq<ProfileDir>>, now: int, location: string): seq<Profile> {
    if location in disk then LocationProfiles(location, disk[location], now) else []
  }

  /** The profiles found over all locations that exist, in location order. */
  function FoundProfiles(locations: seq<string>, disk: map<string, seq<ProfileDir>>, now: int): seq<Profile> {
    Gather(locations, location => ExistingProfiles(disk, now, location))
  }

  /** One more location extends the profiles found by that location's own. */
  lemma FoundProfilesSnoc(locations: seq<string>, disk: map<string, seq<ProfileDir>>, now: int, i: nat)
    requires i < |locations|
    ensures FoundProfiles(locations[..i + 1], disk, now)
         == FoundProfiles(locations[..i], disk, now) + ExistingProfiles(disk, now, locations[i])
  {
    assert locations[..i + 1][..i] == locations[..i];
  }

  /** A profile is found exactly when one of the locations exists and its
      listing yields it; it then carries the storage type of that location. */
  lemma FoundProfilesExact(locations: seq<string>, disk: map<string, seq<ProfileDir>>, now: int, p: Profile)
    ensures p in FoundProfiles(locations, disk, now) <==>
              exists i :: 0 <= i < |locations| && locations[i] in disk
                          && p in LocationProfiles(locations[i], disk[locations[i]], now)
    ensures p in FoundProfiles(locations, disk, now) ==>
              exists i :: 0 <= i < |locations| && p.storageType == StorageType(locations[i])
  {
    GatherExact(locations, location => ExistingProfiles(disk, now, location), p);
    if p in FoundProfiles(locations, disk, now) {
      var i :| 0 <= i < |locations| && p in ExistingProfiles(disk, now, locations[i]);
      LocationStorageType(locations[i], disk[locations[i]], now);
    }
    if exists i :: 0 <= i < |locations| && locations[i] in disk
                   && p in LocationProfiles(locations[i], disk[locations[i]], now) {
      var i :| 0 <= i < |locations| && locations[i] in disk
               && p in LocationProfiles(locations[i], disk[locations[i]], now);
      assert p in ExistingProfiles(disk, now, locations[i]);
    }
  }

  // ---------------------------------------------------------------------------
  // Ordering: `profiles.sort(key=lambda p: p.mods, reverse=True)`

  predicate SortedByMods(ps: seq<Profile>) {
    forall i, j :: 0 <= i < j < |ps| ==> ps[i].mods >= ps[j].mods
  }

  /** Places `p` before the first profile with no more mods than it has. */
  function InsertByMods(p: Profile, sorted: seq<Profile>): seq<Profile> {
    if sorted == [] || sorted[0].mods <= p.mods then [p] + sorted
    else [sorted[0]] + InsertByMods(p, sorted[1..])
  }

  /** The stable sort by mod count, most mods first (Python's sort is stable,
      also with `reverse=True`). */
  function SortByMods(ps: seq<Profile>): seq<Profile> {
    if ps == [] then [] else InsertByMods(ps[0], SortByMods(ps[1..]))
  }

  /** The profiles with exactly `k` mods, in order. */
  function WithMods(ps: seq<Profile>, k: nat): seq<Profile> {
    if ps == [] then []
    else (if ps[0].mods == k then [ps[0]] else []) + WithMods(ps[1..], k)
  }

  /** No profile has more than `bound` mods. */
  predicate AtMost(ps: seq<Profile>, bound: nat) {
    forall i :: 0 <= i < |ps| ==> ps[i].mods <= bound
  }

  lemma {:induction false} InsertAtMost(p: Profile, sorted: seq<Profile>, bound: nat)
    requires AtMost(sorted, bound) && p.mods <= bound
    ensures AtMost(InsertByMods(p, sorted), bound)
  {
    if sorted != [] && sorted[0].mods > p.mods {
      InsertAtMost(p, sorted[1..], bound);
    }
  }

  lemma {:induction false} InsertSorted(p: Profile, sorted: seq<Profile>)
    requires SortedByMods(sorted)
    ensures SortedByMods(InsertByMods(p, sorted))
  {
    if sorted != [] && sorted[0].mods > p.mods {
      var rest := InsertByMods(p, sorted[1..]);
      InsertSorted(p, sorted[1..]);
      InsertAtMost(p, sorted[1..], sorted[0].mods);
      assert InsertByMods(p, sorted) == [sorted[0]] + rest;
    }
  }

  lemma {:induction false} InsertPermutes(p: Profile, sorted: seq<Profile>)
    ensures multiset(InsertByMods(p, sorted)) == multiset(sorted) + multiset{p}
  {
    if sorted != [] && sorted[0].mods > p.mods {
      InsertPermutes(p, sorted[1..]);
      assert sorted == [sorted[0]] + sorted[1..];
    }
  }

  /** The list comes out ordered by mod count, most first. */
  lemma {:induction false} SortByModsSorted(ps: seq<Profile>)
    ensures SortedByMods(SortByMods(ps))
    ensures multiset(SortByMods(ps)) == multiset(ps)
  {
    if ps != [] {
      SortByModsSorted(ps[1..]);
      InsertSorted(ps[0], SortByMods(ps[1..]));
      InsertPermutes(ps[0], SortByMods(ps[1..]));
      assert ps == [ps[0]] + ps[1..];
    }
  }

  lemma WithModsCons(x: Profile, xs: seq<Profile>, k: nat)
    ensures WithMods([x] + xs, k) == (if x.mods == k then [x] else []) + WithMods(xs, k)
  {
    assert ([x] + xs)[1..] == xs;
  }

  lemma {:induction false} InsertKeepsOrder(p: Profile, sorted: seq<Profile>, k: nat)
    ensures WithMods(InsertByMods(p, sorted), k) == (if p.mods == k then [p] else []) + WithMods(sorted, k)
  {
    if sorted != [] && sorted[0].mods > p.mods {
      var rest := InsertByMods(p, sorted[1..]);
      InsertKeepsOrder(p, sorted[1..], k);
      WithModsCons(sorted[0], rest, k);
      WithModsCons(sorted[0], sorted[1..], k);
      assert sorted == [sorted[0]] + sorted[1..];
      if p.mods == k {
        assert sorted[0].mods != k;
        assert WithMods(sorted, k) == WithMods(sorted[1..], k);
      } else {
        assert WithMods(rest, k) == WithMods(sorted[1..], k);
      }
    } else {
      WithModsCons(p, sorted, k);
    }
  }

  /** Stability: profiles with the same mod count keep their found order. */
  lemma {:induction false} SortByModsStable(ps: seq<Profile>, k: nat)
    ensures WithMods(SortByMods(ps), k) == WithMods(ps, k)
  {
    if ps != [] {
      SortByModsStable(ps[1..], k);
      InsertKeepsOrder(ps[0], SortByMods(ps[1..]), k);
    }
  }
}
