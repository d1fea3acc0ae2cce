# ETS2 mod manager — a Dafny model of its profile reading and install step

This project models the logic of `ETS2_Mod_Manager.py`, the installer that writes a
collection of mods into a Euro Truck Simulator 2 profile. The model covers:

- **Scanning.** The manager finds profile folders in three fixed locations under the
  user's documents and in Steam Cloud locations. It derives a storage type from each
  location's path and skips the game's numbered backup folders.
- **Reading a profile.** For each profile it reads `profile.sii`:
  - it decodes the file as UTF-8 when the text mentions `active_mods`, `experience`
    or `company_name`, and otherwise keeps the runs of printable ASCII;
  - it extracts the experience, the declared `active_mods` count and the
    `active_mods[i]` entries with three regular expressions;
  - it computes a level and splits the mods into workshop and local ones;
  - it falls back to the number of save folders when no usable count was read;
  - it drops a profile whose display name is "Unknown" and whose mod count is 0, which happens only for a folder literally named `Unknown`.
- **Ordering.** The profile list is ordered by mod count, most first, with a stable sort.
- **Selecting.** The user picks a profile by number and confirms with `y`.
- **Installing.**
  - If `profile.sii` exists, the manager copies it to `profile.sii.backup`.
  - It then overwrites `profile.sii` with a generated document. The document has:
    - fixed header fields;
    - `company_name` equal to `profile_name`;
    - `experience: 1000` and `money_account: 500000`;
    - the mod count;
    - one indexed line per mod, in order;
    - a trailer whose `}}` is written literally.

Modules, in dependency order:

- `Wrappers`: the `Option` type.
- `Text`: the substring test, whitespace as Python's `str.isspace` defines it, and decimal digits.
- `SiiDecode`: `_decode_sii_simple`.
  - UTF-8 decoding with `errors='ignore'` and UTF-8 encoding.
  - The printable-run loop, as a method proved against a function.
  - The marker gate.
- `SiiPatterns`: the three regular expressions as matchers.
  - `re.search` is modelled as the first start position that matches.
  - `re.findall` is modelled as non-overlapping matches from left to right.
- `Profiles`: `_read_profile`.
  - The hex-name table, the level, and the counting loop (a method).
  - The save-folder fallback and the keep rule.
  - `ReadProfile`, a method proved against the function `ProfileSummary`.
- `SiiDocument`: the document `install_mods` builds.
  - The builder loop, as a method.
  - Proofs that the reader's own patterns read the document back: the entries, the count and the experience.
- `Scan`: the scan rules. These cover storage type, backup exclusion, which listing entries give a profile, and the stable sort.
- `Prompts`: the console rules. These cover the profile-number check, the yes test and the mod display name.
- `Install`: the backup-then-overwrite step over a map from paths to bytes, and the end-to-end read-back lemma.
- `Manager`: the `ETS2ModManager` object as a class.
  - Its fields are `modList`, `profiles` and `selected`.
  - Its methods model `_scan_location`, `scan_profiles`, `select_profile`, `install_mods` and `run`.
  - A `FileStore` class holds the files.

Several things are parameters rather than modelled: what the filesystem answers, the
typed answers, the current time, and whether the copy or the write fails.

Where the code differs from what one would expect of such a tool, the model follows the code:

- **The install replaces the file.** The document is rebuilt from fixed values. It does not
  keep the file's own money, name or company: experience is always 1000, money always 500000,
  and both names are the summary's display name.
- **A failed write is not undone.** Nothing is restored from the backup.
- **A failed backup stops the install.** The target is then left untouched.
- **Display names come only from the table.** A folder name outside the fixed six-entry hex
  table is shown as it is. There is no general hex decoding and no generated placeholder name.
- **A declared count above 200 is ignored.** The count then stays 0. The number of
  `active_mods[i]` entries does not replace it. The save-folder fallback then applies, and it
  overwrites `local_mods` while leaving `workshop_mods` as counted.
- **A huge experience value is caught.** When `xp / 1000` is too large for a float (about 1.8·10^311 experience and up), the OverflowError is caught by the handler around the whole reading block: the experience is kept, the level stays 1 and the count and origin split stay 0, so the save-folder fallback applies.
- **Some profiles are dropped.** If a profile's `save` exists but cannot be listed, the
  exception ends `_read_profile` and the profile is not reported.

## Model

| member | source | states |
|---|---|---|
| SiiDecode.Utf8Ignore | ETS2_Mod_Manager.py:111 | `decode('utf-8', errors='ignore')`: each well-formed UTF-8 sequence gives its character, a byte that starts none is dropped |
| SiiDecode.PrintableText | ETS2_Mod_Manager.py:117-132 | the runs of bytes 32..126 longer than 5, as characters, joined with single spaces |
| SiiDecode.HasMarker | ETS2_Mod_Manager.py:112 | the gate: the text mentions `active_mods`, `experience` or `company_name` |
| SiiDecode.Utf8Encode | ETS2_Mod_Manager.py:353-354 | the bytes a file opened for writing with `encoding='utf-8'` holds: each character's UTF-8 sequence, in order |
| SiiDecode.DecodedText | ETS2_Mod_Manager.py:105-135 | the text `_decode_sii_simple` returns for a read outcome: "" on a read failure, the UTF-8 text when it mentions a marker, else the printable runs |
| SiiDecode.Utf8RoundTrip | ETS2_Mod_Manager.py:111 | decoding with `errors='ignore'` gives back any text written as UTF-8: nothing is dropped |
| SiiDecode.DecodeEncodedChar | ETS2_Mod_Manager.py:111 | each character's encoding is one well-formed sequence of its own length that decodes to that character |
| SiiDecode.Utf8IgnoreAscii | ETS2_Mod_Manager.py:111 | ASCII bytes decode to the same characters |
| SiiDecode.ExtractPrintableText | ETS2_Mod_Manager.py:117-132 | the byte loop (open run, closing at each non-printable byte, trailing run under the same rule, join with single spaces) computes `PrintableText` |
| SiiDecode.RunsCoverPrintableBytes | ETS2_Mod_Manager.py:121-127 | the runs, concatenated, are exactly the printable bytes in input order, and there is one more run than there are non-printable bytes |
| SiiDecode.LongRunsAreLong | ETS2_Mod_Manager.py:125-126 | every kept run is longer than 5 and is one of the runs |
| SiiDecode.KeptRunsArePrintable | ETS2_Mod_Manager.py:122-126 | every kept run holds only characters 32..126 |
| SiiDecode.PrintableTextIsPrintable | ETS2_Mod_Manager.py:117-132 | the fallback text is printable ASCII throughout |
| SiiDecode.AllPrintableKeptWhole | ETS2_Mod_Manager.py:117-132 | input that is all printable and longer than 5 bytes comes back as itself |
| SiiDecode.TrailingRunSameRule | ETS2_Mod_Manager.py:125-130 | the final run is kept under the same rule as a run closed by a non-printable byte |
| SiiDecode.DecodeSiiSimple | ETS2_Mod_Manager.py:103-135 | the decoder gives "" when reading fails, the UTF-8 text when it mentions a marker, and the printable runs otherwise |
| SiiDecode.DecodeAsciiWithMarker | ETS2_Mod_Manager.py:109-113 | a readable ASCII file that mentions a marker is returned unchanged |
| SiiDecode.DecodeFallbackIsPrintable | ETS2_Mod_Manager.py:109-132 | without a marker the result is the printable-run text, and it is printable |
| SiiPatterns.FirstMatch | ETS2_Mod_Manager.py:183 | `re.search`: the match at the first start position, left to right, where the pattern matches, else none |
| SiiPatterns.SearchExperience | ETS2_Mod_Manager.py:183 | the number at the first position where the whole pattern `experience[^:]*:\s*(\d+)` matches, as `re.search` tries every start position |
| SiiPatterns.SearchCount | ETS2_Mod_Manager.py:191 | the number at the first position where the whole pattern `active_mods\s*:\s*(\d+)` matches |
| SiiPatterns.FindEntries | ETS2_Mod_Manager.py:198 | the quoted values of the non-overlapping `active_mods[<digits>]: "..."` matches, left to right; none holds a double quote |
| SiiPatterns.FirstMatchFindsFirst | ETS2_Mod_Manager.py:183 | `re.search` reports the match at the first position where one starts |
| SiiPatterns.FirstMatchNone | ETS2_Mod_Manager.py:183 | with no match at any position there is none |
| SiiPatterns.FirstIndex | ETS2_Mod_Manager.py:183 | `[^:]*:` stops at the first colon: the position found holds the character and none occurs before it |
| SiiPatterns.LeadingNumber | ETS2_Mod_Manager.py:183 | `(\d+)` matches exactly when a digit comes first |
| SiiPatterns.MatchEntry | ETS2_Mod_Manager.py:198 | an entry match starts with `active_mods[`, its value holds no double quote, and the scan moves forward |
| SiiPatterns.EntriesHaveNoQuote | ETS2_Mod_Manager.py:198 | no entry found by `findall` contains a double quote |
| SiiPatterns.FindEntriesWithoutKey | ETS2_Mod_Manager.py:198 | text without `active_mods[` has no entries |
| SiiPatterns.SearchCountFound | ETS2_Mod_Manager.py:191 | a count is read only where the text contains `active_mods` |
| SiiPatterns.FindEntriesSkip | ETS2_Mod_Manager.py:198 | a prefix in which no entry starts adds no entries |
| Profiles.HexName | ETS2_Mod_Manager.py:158-168 | the six-entry table from hex folder names to display names; any other folder name has no entry |
| Profiles.DisplayName | ETS2_Mod_Manager.py:154-168 | the six-entry hex table's value for a known folder name, else the folder name |
| Profiles.DisplayNameUnknown | ETS2_Mod_Manager.py:154-168 | the name is the table value for a known hex folder name, else the folder name; it is "Unknown" only for a folder of that name |
| Profiles.LevelRoot | ETS2_Mod_Manager.py:188 | the integer part of `(xp / 1000) ** 0.5`: the k with 1000·k² ≤ xp < 1000·(k+1)² |
| Profiles.Level | ETS2_Mod_Manager.py:170-188 | the level always lies in 1..150 |
| Profiles.LevelThreshold | ETS2_Mod_Manager.py:188 | below the cap, level l+1 is reached exactly at 1000·l² experience |
| Profiles.LevelMonotone | ETS2_Mod_Manager.py:188 | more experience never lowers the level |
| Profiles.LevelAt4000 | ETS2_Mod_Manager.py:188 | 4000 experience gives level 3 |
| Profiles.LevelRootUnique | ETS2_Mod_Manager.py:188 | the root is the only k between the two squares |
| Profiles.IsWorkshop | ETS2_Mod_Manager.py:200 | an entry is a workshop mod when it contains `workshop_package` |
| Profiles.CountOrigins | ETS2_Mod_Manager.py:199-203 | each entry is counted once: workshop when it contains `workshop_package`, else local; the two add up to the number of entries |
| Profiles.WorkshopCount | ETS2_Mod_Manager.py:199-203 | never more workshop mods than entries |
| Profiles.WorkshopCountAppend | ETS2_Mod_Manager.py:199-203 | counting is additive over concatenated entry lists |
| Profiles.OriginScenario | ETS2_Mod_Manager.py:199-203 | one local and one workshop entry give one workshop mod |
| Profiles.QuotientOverflows | ETS2_Mod_Manager.py:188 | `xp / 1000` raises OverflowError exactly when the correctly rounded quotient reaches 2^1024, i.e. xp / 1000 ≥ 2^1024 − 2^970 |
| Profiles.DeclaredModCount | ETS2_Mod_Manager.py:190-195 | the declared `active_mods` count when it is at most 200, else 0; it is never above 200 and a nonzero value is the one the pattern read |
| Profiles.ReadFields | ETS2_Mod_Manager.py:170-206 | the five values read from `profile.sii`: defaults (0, 1, 0, 0, 0) without the file; the experience; on an overflowing quotient level 1 and zero counts; otherwise the level, the declared count and the origin split |
| Profiles.ReadFieldsOfFile | ETS2_Mod_Manager.py:178-206 | the experience is the one found (or 0); when the quotient overflows, level stays 1 and the counts stay 0; otherwise the level is `Level(xp)`, the count is the declared one and workshop + local equals the number of entries |
| Profiles.ReadFileFields | ETS2_Mod_Manager.py:178-206 | the reading of `profile.sii` (the experience, the level or the overflow that skips the rest of the block, the declared count when 0..200, the origin split) computes `ReadFields` |
| Profiles.ApplySaveFallback | ETS2_Mod_Manager.py:208-214 | with a count read, the fields are kept; with none, a listable `save` gives its number of subdirectories as both the count and the local mods, a missing one leaves them, and an unlistable one drops the profile |
| Profiles.CountAfterFallback | ETS2_Mod_Manager.py:208-214 | the mod count after the fallback: the count read, else the number of save subdirectories, else 0 |
| Profiles.ProfileSummary | ETS2_Mod_Manager.py:151-237 | the profile `_read_profile` returns, or none |
| Profiles.ProfileSummaryKept | ETS2_Mod_Manager.py:208-233 | a profile is returned exactly when `save` is not an unlistable folder (or a count was read) and the name is not "Unknown" or the count after the fallback is positive |
| Profiles.ProfileSummaryFields | ETS2_Mod_Manager.py:208-233 | a returned profile carries the display name, the path, the storage type, the experience, level and workshop count read, the count after the fallback, the local count (the save subdirectories when the fallback applied) and the modification time or now |
| Profiles.ProfileSummaryOrigins | ETS2_Mod_Manager.py:197-214 | when a count was read, the workshop and local mods of the returned profile add up to the number of `active_mods[i]` entries in the file |
| Profiles.ReadProfile | ETS2_Mod_Manager.py:151-237 | `_read_profile` computes `ProfileSummary`, whose keep rule and fields `ProfileSummaryKept`, `ProfileSummaryFields` and `ProfileSummaryOrigins` state |
| SiiDocument.Document | ETS2_Mod_Manager.py:327-350 | the generated `profile.sii` text: header with both names, experience 1000, money 500000 and the count; one indexed line per mod; the trailer |
| SiiDocument.BuildDocument | ETS2_Mod_Manager.py:327-350 | the builder loop produces `Document`: header, one indexed line per mod in order, literal trailer |
| SiiDocument.EntryLinesSnoc | ETS2_Mod_Manager.py:341-342 | appending a mod appends exactly its indexed line |
| SiiDocument.DocumentEntriesRoundTrip | ETS2_Mod_Manager.py:327-350 | the entry pattern finds exactly the mod list, in order, in the document, when no mod contains `"` and the name does not contain `active_mods[` |
| SiiDocument.DocumentCountRoundTrip | ETS2_Mod_Manager.py:328-337 | the count pattern reads the number of mods from the document when the name does not contain `active_mods` |
| SiiDocument.DocumentExperienceRoundTrip | ETS2_Mod_Manager.py:328-334 | the experience pattern reads 1000 from the document when the name does not contain `experience` |
| SiiDocument.FindEntriesLines | ETS2_Mod_Manager.py:342 | when no mod contains `"`, the indexed lines yield their mods, in order, followed by whatever comes after them |
| SiiDocument.HeaderSkipped | ETS2_Mod_Manager.py:328-338 | when the name does not contain `active_mods[`, the header holds no entry |
| SiiDocument.TrailerHasNoEntries | ETS2_Mod_Manager.py:345-350 | the trailer holds no entry |
| Scan.DefaultLocations | ETS2_Mod_Manager.py:60-64 | the three fixed profile folders under `C:/Users/<user>`: Documents, OneDrive/Documents and OneDrive/Documentos |
| Scan.ScanLocations | ETS2_Mod_Manager.py:60-68 | the fixed locations followed by the Steam locations, in that order |
| Scan.StorageType | ETS2_Mod_Manager.py:139 | "Steam Cloud", "OneDrive" or "Local" by the markers in the location path |
| Scan.IsBackupFolder | ETS2_Mod_Manager.py:142 | a folder name holding both `(` and `.bak` |
| Scan.EntryResult | ETS2_Mod_Manager.py:141-149 | a listing entry gives the profile read from it when it is not a backup name and is a directory |
| Scan.LocationProfiles | ETS2_Mod_Manager.py:141-149 | the profiles the `_scan_location` loop appends for one listing: each entry's result, in listing order, where there is one |
| Scan.FoundProfiles | ETS2_Mod_Manager.py:70-72 | the profiles of every existing location, in location order and listing order |
| Scan.SortByMods | ETS2_Mod_Manager.py:74 | the stable sort by mod count, most first, as an insertion sort |
| Scan.JoinPath | ETS2_Mod_Manager.py:145 | the joined path starts with the directory and ends with the name |
| Scan.StorageTypeCases | ETS2_Mod_Manager.py:139 | "Steam Cloud" exactly for paths containing `userdata`; "OneDrive" exactly for the others containing `OneDrive`; "Local" for the rest |
| Scan.DefaultLocationsStorage | ETS2_Mod_Manager.py:60-64 | for a user name that mentions neither marker, the first fixed location is Local and the two OneDrive ones are OneDrive |
| Scan.BackupCopySkipped | ETS2_Mod_Manager.py:142 | names of the form `<name> (<n>).bak` are skipped |
| Scan.OneMarkKept | ETS2_Mod_Manager.py:142 | a name with only `.bak` or only `(` is kept |
| Scan.PresentExact | ETS2_Mod_Manager.py:141-149 | a result is kept exactly when some element gives it |
| Scan.GatherExact | ETS2_Mod_Manager.py:70-72 | a profile is gathered over the locations exactly when some location's own results hold it |
| Scan.LocationProfilesExact | ETS2_Mod_Manager.py:141-149 | a profile is found in a location exactly when some listed entry yields it |
| Scan.YieldsShape | ETS2_Mod_Manager.py:142-147 | an entry yields a profile only when it is a non-backup directory; the profile carries the location's storage type and path |
| Scan.LocationStorageType | ETS2_Mod_Manager.py:139-147 | every profile of a location carries that location's storage type |
| Scan.FoundProfilesExact | ETS2_Mod_Manager.py:70-72 | a profile is found exactly when an existing location's listing yields it |
| Scan.SortByModsSorted | ETS2_Mod_Manager.py:74 | the ordered list is sorted by mod count, most first, and is a permutation of the profiles found |
| Scan.SortByModsStable | ETS2_Mod_Manager.py:74 | profiles with equal mod counts keep their found order |
| Scan.InsertSorted | ETS2_Mod_Manager.py:74 | inserting into a sorted list keeps it sorted |
| Scan.InsertPermutes | ETS2_Mod_Manager.py:74 | inserting adds exactly the one profile |
| Prompts.Strip | ETS2_Mod_Manager.py:284 | `strip()`: the answer without leading and trailing whitespace |
| Prompts.ParseInt | ETS2_Mod_Manager.py:289 | `int()` of the stripped answer: an optional sign followed by decimal digits gives their value, anything else none (the ValueError) |
| Prompts.CheckSelection | ETS2_Mod_Manager.py:284-307 | the verdict on one typed profile number: cancel on "0", ask again on an unreadable or out-of-range number, else the chosen index |
| Prompts.Confirmed | ETS2_Mod_Manager.py:298-299 | the stripped, lower-cased answer is `y` |
| Prompts.ModDisplay | ETS2_Mod_Manager.py:388-390 | the name after the last bar, cut to 47 characters and "..." when longer than 50 |
| Prompts.StripSurrounded | ETS2_Mod_Manager.py:284 | `strip()` gives back a word surrounded by any whitespace |
| Prompts.ParseIntRoundTrip | ETS2_Mod_Manager.py:289 | `int()` reads a decimal number back, with either sign |
| Prompts.SelectionSound | ETS2_Mod_Manager.py:284-291 | a chosen index is below the number of profiles and is the typed number less one; only "0" cancels; an unreadable number asks again |
| Prompts.SelectionComplete | ETS2_Mod_Manager.py:284-291 | every listed profile is chosen by typing its number, with any whitespace around it |
| Prompts.ZeroSpellings | ETS2_Mod_Manager.py:284-291 | "00" and "-0" are out of range, not a cancel |
| Prompts.ConfirmedAnswers | ETS2_Mod_Manager.py:298-299 | `y` or `Y` with any whitespace confirms; `yes` does not |
| Prompts.LastSegment | ETS2_Mod_Manager.py:388 | the shown segment is the longest end of the mod without a bar |
| Prompts.LastSegmentAfterBar | ETS2_Mod_Manager.py:388 | for `package\|name` the name is shown |
| Prompts.ModDisplayBounds | ETS2_Mod_Manager.py:388-390 | the shown name has at most 50 characters and no bar; a short name without a bar is unchanged; a long one keeps 47 characters and ends in "..." |
| Prompts.SampleDisplays | ETS2_Mod_Manager.py:385-391 | five mods are shown, the first five, and only when there are at least five |
| Install.ProfileFile | ETS2_Mod_Manager.py:317 | the path of `profile.sii` inside the profile folder |
| Install.InstallOutcome | ETS2_Mod_Manager.py:319-362 | the files and the result after the backup copy of an existing target and the write, each of which may fail |
| Install.BackupFile | ETS2_Mod_Manager.py:321 | the backup path differs from the target and extends it |
| Install.InstallSucceeds | ETS2_Mod_Manager.py:319-362 | the install succeeds exactly when neither the copy of an existing target nor the write fails, and then the target holds the new content |
| Install.BackupHoldsPrevious | ETS2_Mod_Manager.py:321-354 | after a successful copy the backup holds the target's previous content, also once the target is overwritten |
| Install.NoBackupWithoutTarget | ETS2_Mod_Manager.py:322 | no backup is made when the target does not exist |
| Install.FailureKeepsTarget | ETS2_Mod_Manager.py:319-362 | a failed install leaves the target as it was |
| Install.InstallFrame | ETS2_Mod_Manager.py:319-362 | no file other than the target and its backup changes |
| Install.DocumentHasMarker | ETS2_Mod_Manager.py:112 | for any profile name, the generated document passes the decoder's marker gate (it holds the `experience` field) |
| Install.InstalledText | ETS2_Mod_Manager.py:110-113 | for any profile name, the decoder returns the installed file's text unchanged |
| Install.InstalledFileReads | ETS2_Mod_Manager.py:178-203 | when no mod contains `"` and the name contains neither `active_mods` nor `experience`, reading the installed file back gives experience 1000 and its level, the mod count (when at most 200) and every mod counted once by origin |
| Install.InstalledLevel | ETS2_Mod_Manager.py:187-188 | an installed profile shows level 2 |
| Manager.SelectionOutcome | ETS2_Mod_Manager.py:285-303 | the outcome of one pass of the selection loop: "0" cancels, an unreadable or unlisted number asks again, a listed number is accepted on a yes and declined otherwise |
| Manager.Proceeds | ETS2_Mod_Manager.py:375-415 | `run` reaches the install when there are mods and profiles, a listed number was typed and both prompts were answered yes |
| Manager.AcceptedNeedsBoth | ETS2_Mod_Manager.py:289-303 | a selection is accepted exactly when a listed number is followed by a yes |
| Manager.ModManager.constructor | ETS2_Mod_Manager.py:31-41 | the mod list is loaded; there are no profiles and no selection yet |
| Manager.ModManager.ScanLocation | ETS2_Mod_Manager.py:137-149 | appends `LocationProfiles` of the listing to the profiles and changes nothing else |
| Manager.ModManager.ScanProfiles | ETS2_Mod_Manager.py:53-75 | the profiles become the stable sort of those found in the existing locations; they are sorted, most mods first, and are a permutation of those found |
| Manager.ModManager.SelectProfile | ETS2_Mod_Manager.py:238-307 | scans only when nothing was scanned; reports no profiles, cancel, ask again, declined or accepted; selects exactly the listed profile chosen |
| Manager.ModManager.InstallMods | ETS2_Mod_Manager.py:309-362 | without a selection nothing changes; otherwise the files and the result are those of `InstallOutcome` for the built document |
| Manager.ModManager.Run | ETS2_Mod_Manager.py:364-440 | the mod list is kept; profiles are scanned only when there are mods and none were scanned; the chosen profile is selected; when `Proceeds` the files are those of `InstallOutcome` for the chosen profile, otherwise no file changes; the install is reported exactly when it proceeds and neither the copy of an existing target nor the write fails, and then the target holds the document |

## Left out

- Steam location discovery: the registry lookup and the `userdata` enumeration (ETS2_Mod_Manager.py:77-101) are operating-system calls. The Steam locations are a parameter.
- Filesystem calls: `os.listdir`, `os.path.exists`, `os.path.isdir` and `getmtime` are inputs. These are a map from existing locations to their listings, and per folder: whether it is a directory, what reading `profile.sii` gives, what `save` holds, and the modification time. The current time is a parameter.
- The file copy and the write are updates of a map from paths to bytes.
- Install.FailureKeepsTarget: holds only because a failure is modelled as all-or-nothing. In the program `open(..., 'w')` truncates the target before `write`, so a write that fails partway leaves a truncated target; a partial backup is not modelled either.
- Windows text-mode newline translation (`\n` written as `\r\n`) is not modelled: the file holds the UTF-8 encoding of the document as built.
- Console output, the repeated prompt loop and the "Press Enter" pauses are not modelled. One answer is checked per call, and `AskAgain` stands for the prompt being repeated.
- Loading `load_order.json` is not modelled: the mod list is the constructor's argument. `test_json.py` is a debugging script and is not modelled.
- Scan.JoinPath: models `os.path.join` for a single name component only; drive-relative and UNC forms of `ntpath` are not modelled.
- Prompts.ParseInt: accepts an optional sign and ASCII digits; `int()` also accepts underscores between digits and non-ASCII decimal digits, which are not modelled.
- SiiPatterns.LeadingNumber: `\d` is read as ASCII digits; Python's `\d` also matches other Unicode decimal digits.
- Prompts.Confirmed: `.lower() == 'y'` is modelled as the stripped answer being `y` or `Y`, the only strings whose lower case is `y`.
- Profiles.LevelRoot: `(xp / 1000) ** 0.5` is floating point in the program; the model uses the exact integer square root of xp / 1000. For experience whose quotient does not overflow both give the same level: at 1000·150² and above both reach the cap of 150, and below it every root just short of an integer k ≤ 150 is short by far more than the rounding error of the two floating-point steps. The overflowing quotient is modelled (`Profiles.QuotientOverflows`).
- Profiles.ReadFileFields: `int()` of a number of more than 4300 digits raises ValueError at lines 185 and 193 under Python 3.11 and later with the default limit; this depends on the interpreter version and its setting and is not modelled.
- Characters are Unicode scalar values, so a lone surrogate in a mod name, on which the UTF-8 write would raise, cannot occur in the model.
- A location that exists but cannot be listed makes `scan_profiles` raise; the model lists only locations that can be listed.
