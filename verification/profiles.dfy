/** The summary `_read_profile` builds for one profile directory: display name,
    experience and level, mod counts by origin, the save-folder fallback and the
    rule that decides whether the directory is reported at all. Filesystem
    answers (does `profile.sii` exist, what does reading it give, what does
    listing `save` give, the modification time, the current time) are inputs. */
module Profiles {
  import opened Text
  import opened Wrappers
  import opened SiiDecode
  import opened SiiPatterns

  /** The `ETS2Profile` record. `lastSave` is a timestamp in seconds. */
  datatype Profile = Profile(
    name: string,
    path: string,
    level: nat,
    xp: nat,
    mods: nat,
    workshopMods: nat,
    localMods: nat,
    lastSave: int,
    storageType: string)

  /** What the profile's `save` folder gives: absent, a directory with this many
      subdirectories, or something that exists but cannot be listed (a plain
      file, no permission), on which `os.listdir` raises. */
  datatype SaveFolder = NoSaveFolder | SaveFolder(subdirectories: nat) | UnlistableSaveFolder

  /** What the filesystem says about one profile directory: its name, whether it
      is a directory, its `profile.sii` (None when the file does not exist), its
      `save` folder and its modification time (None when it cannot be read). */
  datatype ProfileDir = ProfileDir(
    folderName: string,
    isDirectory: bool,
    profileFile: Option<ReadOutcome>,
    save: SaveFolder,
    modifiedTime: Option<int>)

  // ---------------------------------------------------------------------------
  // Display name

  /** The fixed table of hex-encoded folder names the tool knows. */
  function HexName(folderName: string): Option<string> {
    if folderName == "3F" then Some("?")
    else if folderName == "4E656E677565" then Some("Nengue")
    else if folderName == "526F63615F757775" then Some("Roca_uwu")
    else if folderName == "69727569" then Some("irui")
    else if folderName == "526F647269676F" then Some("Rodrigo")
    else if folderName == "526F647269676F20" then Some("Rodrigo ")
    else None
  }

  /** The name shown for a folder: the table's value for a known hex name, the
      folder name itself otherwise. */
  function DisplayName(folderName: string): string {
    HexName(folderName).GetOr(folderName)
  }

  /** No table name is "Unknown", so the keep rule's name test fails only for a
      folder literally called "Unknown". */
  lemma DisplayNameUnknown(folderName: string)
    ensures DisplayName(folderName) == "Unknown" <==> folderName == "Unknown"
    ensures HexName(folderName).Some? ==> DisplayName(folderName) == HexName(folderName).value
    ensures HexName(folderName).None? ==> DisplayName(folderName) == folderName
  {
  }

  // ---------------------------------------------------------------------------
  // Level

  const MaxLevel: nat := 150
  /** Experience per squared level step: level k + 1 starts at 1000 * k * k. */
  const XpScale: nat := 1000

  /** The largest r >= k with XpScale * (r * r) <= xp. */
  function RootFrom(xp: nat, k: nat): (r: nat)
    requires XpScale * (k * k) <= xp
    ensures XpScale * (r * r) <= xp < XpScale * ((r + 1) * (r + 1))
    decreases xp - XpScale * (k * k)
  {
    if XpScale * ((k + 1) * (k + 1)) > xp then k
    else
      assert XpScale * ((k + 1) * (k + 1)) > XpScale * (k * k);
      RootFrom(xp, k + 1)
  }

  /** `int((xp / 1000) ** 0.5)`, read exactly: the integer square root of xp / 1000. */
  function LevelRoot(xp: nat): (k: nat)
    ensures XpScale * (k * k) <= xp < XpScale * ((k + 1) * (k + 1))
  {
    RootFrom(xp, 0)
  }

  function Min(a: int, b: int): int { if a < b then a else b }
  function Max(a: int, b: int): int { if a < b then b else a }

  /** The level shown for an experience value: 1 without experience, otherwise
      one more than the root, clamped to 1..150. */
  function Level(xp: nat): (level: nat)
    ensures 1 <= level <= MaxLevel
  {
    if xp > 0 then Min(MaxLevel, Max(1, LevelRoot(xp) + 1)) else 1
  }

  lemma SquareMonotone(a: nat, b: nat)
    requires a <= b
    ensures a * a <= b * b
  {
    assert a * a <= a * b <= b * b;
  }

  /** Squares of naturals order their roots strictly. */
  lemma SquareStrict(a: nat, b: nat)
    ensures a * a < b * b ==> a < b
  {
    if a >= b {
      SquareMonotone(b, a);
    }
  }

  /** The root is the only k with XpScale * k * k <= xp < XpScale * (k + 1) * (k + 1). */
  lemma LevelRootUnique(xp: nat, k: nat)
    requires XpScale * (k * k) <= xp < XpScale * ((k + 1) * (k + 1))
    ensures LevelRoot(xp) == k
  {
    var r := LevelRoot(xp);
    SquareStrict(r, k + 1);
    SquareStrict(k, r + 1);
  }

  /** Level L + 1 (for L below the cap) is reached exactly at 1000 * L * L experience. */
  lemma LevelThreshold(xp: nat, l: nat)
    requires 1 <= l < MaxLevel
    ensures Level(xp) >= l + 1 <==> xp >= XpScale * (l * l)
  {
    var r := LevelRoot(xp);
    SquareStrict(l, r + 1);
    SquareStrict(r, l);
  }

  /** More experience never lowers the level. */
  lemma LevelMonotone(xp1: nat, xp2: nat)
    requires xp1 <= xp2
    ensures Level(xp1) <= Level(xp2)
  {
    SquareStrict(LevelRoot(xp1), LevelRoot(xp2) + 1);
  }

  /** `experience: 4000` shows level 3. */
  lemma LevelAt4000()
    ensures Level(4000) == 3
  {
    LevelRootUnique(4000, 2);
  }

  // ---------------------------------------------------------------------------
  // Mod counts

  /** A declared `active_mods: N` is trusted only up to this many mods. */
  const MaxDeclaredMods: nat := 200
  const WorkshopMarker := "workshop_package"

  predicate IsWorkshop(entry: string) {
    Contains(entry, WorkshopMarker)
  }

  /** How many entries name a workshop package. */
  function WorkshopCount(entries: seq<string>): (n: nat)
    ensures n <= |entries|
  {
    if entries == [] then 0
    else WorkshopCount(entries[..|entries| - 1]) + (if IsWorkshop(entries[|entries| - 1]) then 1 else 0)
  }

  /** Counting is additive over concatenation. */
  lemma {:induction false} WorkshopCountAppend(a: seq<string>, b: seq<string>)
    ensures WorkshopCount(a + b) == WorkshopCount(a) + WorkshopCount(b)
    decreases |b|
  {
    if b == [] {
      assert a + b == a;
    } else {
      assert (a + b)[..|a + b| - 1] == a + b[..|b| - 1];
      WorkshopCountAppend(a, b[..|b| - 1]);
    }
  }

  /** The counting loop of `_read_profile`: every entry is counted once, as
      workshop when it names a workshop package and as local otherwise. */
  method CountOrigins(entries: seq<string>) returns (workshop: nat, local: nat)
    ensures workshop == WorkshopCount(entries)
    ensures workshop + local == |entries|
  {
    workshop, local := 0, 0;
    for i := 0 to |entries|
      invariant workshop == WorkshopCount(entries[..i])
      invariant workshop + local == i
    {
      assert entries[..i + 1][..i] == entries[..i];
      if IsWorkshop(entries[i]) {
        workshop := workshop + 1;
      } else {
        local := local + 1;
      }
    }
    assert entries[..|entries|] == entries;
  }

  /** Two entries, one local and one from the workshop, split one and one. */
  lemma OriginScenario()
    ensures WorkshopCount(["a|pkg1", "workshop_package.b"]) == 1
  {
    var e := ["a|pkg1", "workshop_package.b"];
    assert e[..1] == ["a|pkg1"];
    assert e[..1][..0] == [];
    assert StartsWith("workshop_package.b"[0..], WorkshopMarker);
    NotContainsByChar("a|pkg1", WorkshopMarker, 'w');
  }

  // ---------------------------------------------------------------------------
  // The summary

  /** What `_read_profile` takes from the profile file, before the fallback:
      the experience, the level computed from it, the declared count and the
      origin split of the entries. */
  datatype FileFields = FileFields(xp: nat, level: nat, modCount: nat, workshopMods: nat, localMods: nat)

  /** 2^1024 - 2^970, halfway between the largest double and 2^1024. `xp / 1000`
      on Python integers is rounded to the nearest double, ties to even; the
      result reaches 2^1024, and OverflowError is raised, exactly when the
      quotient is at least this value. */
  const FloatOverflowQuotient: nat := 0xFFFFFFFFFFFFFC00_0000000000000000_0000000000000000_0000000000000000_0000000000000000_0000000000000000_0000000000000000_0000000000000000_0000000000000000_0000000000000000_0000000000000000_0000000000000000_0000000000000000_0000000000000000_0000000000000000_0000000000000000

  /** `xp / 1000` raises OverflowError. */
  predicate QuotientOverflows(xp: nat) {
    xp >= XpScale * FloatOverflowQuotient
  }

  /** The declared count, when it is present and in range; 0 otherwise. */
  function DeclaredModCount(content: string): (n: nat)
    ensures n <= MaxDeclaredMods
    ensures n > 0 ==> SearchCount(content) == Some(n)
    ensures SearchCount(content).Some? && SearchCount(content).value <= MaxDeclaredMods ==> n == SearchCount(content).value
  {
    var declared := SearchCount(content);
    if declared.Some? && declared.value <= MaxDeclaredMods then declared.value else 0
  }

  /** Fields read from `profile.sii`: the defaults (no experience, level 1, no
      mods) when the file does not exist. When `xp / 1000` overflows, the
      exception handler of the inner `try` keeps the experience already read
      and the defaults for everything after it. */
  function ReadFields(file: Option<ReadOutcome>): FileFields {
    match file
    case None => FileFields(0, 1, 0, 0, 0)
    case Some(f) =>
      var content := DecodedText(f);
      var xp := SearchExperience(content).GetOr(0);
      if QuotientOverflows(xp) then FileFields(xp, 1, 0, 0, 0)
      else
        var entries := FindEntries(content);
        var workshop := WorkshopCount(entries);
        FileFields(xp, Level(xp), DeclaredModCount(content), workshop, |entries| - workshop)
  }

  /** What is read from an existing `profile.sii`: the experience the pattern
      finds (0 without a match); then either the overflow defaults or the level
      of that experience, the declared count and every entry counted once by
      origin. */
  lemma ReadFieldsOfFile(f: ReadOutcome)
    ensures var fields := ReadFields(Some(f));
            var content := DecodedText(f);
            var xp := SearchExperience(content).GetOr(0);
            fields.xp == xp
            && (QuotientOverflows(xp) ==>
                  fields.level == 1 && fields.modCount == 0 && fields.workshopMods == 0 && fields.localMods == 0)
            && (!QuotientOverflows(xp) ==>
                  fields.level == Level(xp) && fields.modCount == DeclaredModCount(content)
                  && fields.workshopMods == WorkshopCount(FindEntries(content))
                  && fields.workshopMods + fields.localMods == |FindEntries(content)|)
  {
  }

  /** With no usable mod count, the number of save subdirectories stands in and
      is attributed to local mods; listing a `save` that is not a directory
      raises, and the directory is then not reported (None). */
  function ApplySaveFallback(fields: FileFields, save: SaveFolder): Option<FileFields> {
    if fields.modCount != 0 then Some(fields)
    else
      match save
      case NoSaveFolder => Some(fields)
      case SaveFolder(n) => Some(fields.(modCount := n, localMods := n))
      case UnlistableSaveFolder => None
  }

  /** The summary of one profile directory, or None when it is not reported. */
  function ProfileSummary(profilePath: string, dir: ProfileDir, storageType: string, now: int): Option<Profile> {
    var name := DisplayName(dir.folderName);
    var fields := ApplySaveFallback(ReadFields(dir.profileFile), dir.save);
    if fields.None? then None
    else
      var f := fields.value;
      if name != "Unknown" || f.modCount > 0 then
        Some(Profile(name, profilePath, f.level, f.xp, f.modCount, f.workshopMods, f.localMods,
                     dir.modifiedTime.GetOr(now), storageType))
      else None
  }

  /** The mod count after the fallback: the count read from the file when it
      is not 0, otherwise the number of save subdirectories when `save` is a
      listable folder, otherwise 0. */
  function CountAfterFallback(read: nat, save: SaveFolder): nat {
    if read != 0 then read else if save.SaveFolder? then save.subdirectories else 0
  }

  /** The keep rule: a directory is reported exactly when listing `save` did
      not raise (it is only listed when the file gave no count) and it has a
      name other than "Unknown" or some mods after the fallback. */
  lemma ProfileSummaryKept(profilePath: string, dir: ProfileDir, storageType: string, now: int)
    ensures var read := ReadFields(dir.profileFile).modCount;
            ProfileSummary(profilePath, dir, storageType, now).Some?
            <==> (read != 0 || !dir.save.UnlistableSaveFolder?)
                 && (DisplayName(dir.folderName) != "Unknown" || CountAfterFallback(read, dir.save) > 0)
  {
  }

  /** The reported profile: display name, path, storage type, the experience
      and level read from the file, the workshop count as counted, the mod and
      local counts replaced by the save-folder count only when the file gave no
      mod count, and the modification time or else the current time. */
  lemma ProfileSummaryFields(profilePath: string, dir: ProfileDir, storageType: string, now: int)
    requires ProfileSummary(profilePath, dir, storageType, now).Some?
    ensures var p := ProfileSummary(profilePath, dir, storageType, now).value;
            var fields := ReadFields(dir.profileFile);
            p.name == DisplayName(dir.folderName) && p.path == profilePath && p.storageType == storageType
            && p.xp == fields.xp && p.level == fields.level && p.workshopMods == fields.workshopMods
            && p.mods == CountAfterFallback(fields.modCount, dir.save)
            && p.localMods == (if fields.modCount == 0 && dir.save.SaveFolder? then dir.save.subdirectories
                               else fields.localMods)
            && p.lastSave == dir.modifiedTime.GetOr(now)
  {
  }

  /** Without the fallback, every entry of the file is counted once, as a
      workshop or a local mod. */
  lemma ProfileSummaryOrigins(profilePath: string, dir: ProfileDir, storageType: string, now: int)
    requires dir.profileFile.Some?
    ensures var s := ProfileSummary(profilePath, dir, storageType, now);
            s.Some? && ReadFields(dir.profileFile).modCount != 0 ==>
              s.value.workshopMods + s.value.localMods == |FindEntries(DecodedText(dir.profileFile.value))|
  {
    ReadFieldsOfFile(dir.profileFile.value);
  }

  /** The inner block of `_read_profile` that reads `profile.sii`: experience
      and level, the declared count when in range, and the origin split of the
      entries; an overflowing `xp / 1000` leaves the rest at its defaults. */
  method ReadFileFields(file: ReadOutcome) returns (fields: FileFields)
    ensures fields == ReadFields(Some(file))
  {
    var xp: nat, level: nat, modCount: nat := 0, 1, 0;
    var content := DecodeSiiSimple(file);
    var xpMatch := SearchExperience(content);
    if xpMatch.Some? {
      xp := xpMatch.value;
      if xp > 0 {
        if QuotientOverflows(xp) {
          // OverflowError, caught by the handler around the whole block
          return FileFields(xp, level, modCount, 0, 0);
        }
        level := Level(xp);
      }
    }
    assert xp == SearchExperience(content).GetOr(0);
    assert level == Level(xp);
    var modMatch := SearchCount(content);
    if modMatch.Some? {
      var declared := modMatch.value;
      if 0 <= declared <= MaxDeclaredMods {
        modCount := declared;
      }
    }
    assert modCount == DeclaredModCount(content);
    var entries := FindEntries(content);
    var workshop, local := CountOrigins(entries);
    fields := FileFields(xp, level, modCount, workshop, local);
  }

  /** `_read_profile`. */
  method ReadProfile(profilePath: string, dir: ProfileDir, storageType: string, now: int)
    returns (r: Option<Profile>)
    ensures r == ProfileSummary(profilePath, dir, storageType, now)
  {
    var name := DisplayName(dir.folderName);
    var fields := FileFields(0, 1, 0, 0, 0);
    if dir.profileFile.Some? {
      fields := ReadFileFields(dir.profileFile.value);
    }
    if fields.modCount == 0 {
      match dir.save
      case NoSaveFolder =>
      case SaveFolder(n) =>
        fields := fields.(modCount := n, localMods := n);
      case UnlistableSaveFolder =>
        return None;
    }
    var lastSave := if dir.modifiedTime.Some? then dir.modifiedTime.value else now;
    if name != "Unknown" || fields.modCount > 0 {
      r := Some(Profile(name, profilePath, fields.level, fields.xp, fields.modCount, fields.workshopMods,
                        fields.localMods, lastSave, storageType));
    } else {
      r := None;
    }
  }
}
