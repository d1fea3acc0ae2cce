/** The effect of `install_mods` on the profile folder, over a file store that
    maps paths to their bytes: the backup of an existing `profile.sii`, then
    the overwrite with the generated document, written as UTF-8. Whether the
    copy or the write fails is an input. */
module Install {
  import opened Text
  import opened Wrappers
  import opened SiiDecode
  import opened SiiPatterns
  import opened Profiles
  import opened SiiDocument
  import opened Scan

  /** Paths to file contents. */
  type Files = map<string, seq<byte>>

  function ProfileFile(profilePath: string): string {
    JoinPath(profilePath, "profile.sii")
  }

  function BackupFile(target: string): (backup: string)
    ensures backup != target && StartsWith(backup, target)
  {
    target + ".backup"
  }

  /** Whether `install_mods` reports success, and the files afterwards. */
  datatype InstallResult = InstallResult(ok: bool, files: Files)

  /** The copy to the backup happens only when the target exists; a failed
      copy ends the install before anything is written; a failed write leaves
      the backup in place and the target as it was. */
  function InstallOutcome(files: Files, target: string, content: seq<byte>,
                          copyFails: bool, writeFails: bool): InstallResult
  {
    if target in files && copyFails then InstallResult(false, files)
    else
      var backedUp := if target in files then files[BackupFile(target) := files[target]] else files;
      if writeFails then InstallResult(false, backedUp)
      else InstallResult(true, backedUp[target := content])
  }

  /** The install succeeds exactly when neither step fails (the copy is only
      attempted for an existing target), and then the target holds the new
      content. */
  lemma InstallSucceeds(files: Files, target: string, content: seq<byte>, copyFails: bool, writeFails: bool)
    ensures var r := InstallOutcome(files, target, content, copyFails, writeFails);
            (r.ok <==> !writeFails && !(target in files && copyFails))
            && (r.ok ==> target in r.files && r.files[target] == content)
  {
  }

  /** The previous content of an existing target is in the backup afterwards,
      also when the target was overwritten: the copy comes first. */
  lemma BackupHoldsPrevious(files: Files, target: string, content: seq<byte>, copyFails: bool, writeFails: bool)
    requires target in files && !copyFails
    ensures var r := InstallOutcome(files, target, content, copyFails, writeFails);
            BackupFile(target) in r.files && r.files[BackupFile(target)] == files[target]
  {
  }

  /** Without an existing target no backup is made: the backup path keeps
      whatever it held, or stays absent. */
  lemma NoBackupWithoutTarget(files: Files, target: string, content: seq<byte>, copyFails: bool, writeFails: bool)
    requires target !in files
    ensures var r := InstallOutcome(files, target, content, copyFails, writeFails);
            (BackupFile(target) in r.files <==> BackupFile(target) in files)
            && (BackupFile(target) in files ==> r.files[BackupFile(target)] == files[BackupFile(target)])
  {
  }

  /** A failed install leaves the target as it was. */
  lemma FailureKeepsTarget(files: Files, target: string, content: seq<byte>, copyFails: bool, writeFails: bool)
    ensures var r := InstallOutcome(files, target, content, copyFails, writeFails);
            !r.ok ==> (target in r.files <==> target in files)
                      && (target in files ==> r.files[target] == files[target])
  {
  }

  /** No file other than the target and its backup is touched. */
  lemma InstallFrame(files: Files, target: string, content: seq<byte>, copyFails: bool, writeFails: bool, other: string)
    requires other != target && other != BackupFile(target)
    ensures var r := InstallOutcome(files, target, content, copyFails, writeFails);
            (other in r.files <==> other in files) && (other in files ==> r.files[other] == files[other])
  {
  }

  // ---------------------------------------------------------------------------
  // Reading back what was installed

  /** Whatever the profile name, the generated document holds the
      `experience` field right after the name block, so the decoder keeps it
      as text. */
  lemma {:induction false} DocumentHasMarker(name: string, mods: seq<string>)
    ensures HasMarker(Document(name, mods))
  {
    var names := NamesBlock(name);
    var head := Header(name, |mods|);
    var doc := Document(name, mods);
    assert head == names + FixedFields + CountLine(|mods|);
    forall k | 0 <= k < 10
      ensures doc[|names| + k] == "experience"[k]
    {
      assert doc[|names| + k] == head[|names| + k];
      assert head[|names| + k] == FixedFields[k];
    }
    assert doc[|names|..|names| + 10] == "experience";
    ContainsAt(doc, "experience", |names|);
  }

  /** The decoder gives the installed document back unchanged, whatever the
      profile name. */
  lemma {:induction false} InstalledText(name: string, mods: seq<string>)
    ensures DecodedText(ReadOk(Utf8Encode(Document(name, mods)))) == Document(name, mods)
  {
    Utf8RoundTrip(Document(name, mods));
    DocumentHasMarker(name, mods);
  }

  /** A name without `active_mods` cannot hold `active_mods[` either. */
  lemma NameLacksEntryKey(name: string)
    requires !Contains(name, CountKey)
    ensures !Contains(name, EntryKey)
  {
    if Contains(name, EntryKey) {
      assert EntryKey == CountKey + "[";
      ContainsPrefix(name, CountKey, "[");
    }
  }

  /** Reading the installed `profile.sii` back as `_read_profile` does gives
      experience 1000 and its level, the declared count (used when it is at most 200), and
      every installed mod counted once by origin; the profile name must not
      contain the keys the reader searches for.
      The conditions on the name are sufficient, not the weakest: see
      `DocumentCountRoundTrip` and `DocumentExperienceRoundTrip`. */
  lemma {:induction false} InstalledFileReads(name: string, mods: seq<string>)
    requires QuoteFree(mods)
    requires !Contains(name, CountKey) && !Contains(name, ExperienceKey)
    ensures ReadFields(Some(ReadOk(Utf8Encode(Document(name, mods)))))
         == FileFields(FixedExperience, Level(FixedExperience), if |mods| <= MaxDeclaredMods then |mods| else 0,
                       WorkshopCount(mods), |mods| - WorkshopCount(mods))
  {
    var doc := Document(name, mods);
    assert DecodedText(ReadOk(Utf8Encode(doc))) == doc by {
      InstalledText(name, mods);
    }
    assert FindEntries(doc) == mods by {
      NameLacksEntryKey(name);
      DocumentEntriesRoundTrip(name, mods);
    }
    assert SearchCount(doc) == Some(|mods|) by {
      DocumentCountRoundTrip(name, mods);
    }
    assert SearchExperience(doc) == Some(FixedExperience) by {
      DocumentExperienceRoundTrip(name, mods);
    }
    assert !QuotientOverflows(FixedExperience);
    FieldsOfText(ReadOk(Utf8Encode(doc)), doc, FixedExperience, |mods|, mods);
  }

  /** The fields read from a file whose text has the given matches. */
  lemma FieldsOfText(file: ReadOutcome, content: string, xp: nat, count: nat, entries: seq<string>)
    ensures DecodedText(file) == content
            && SearchExperience(content) == Some(xp) && SearchCount(content) == Some(count)
            && FindEntries(content) == entries && !QuotientOverflows(xp)
        ==> (ReadFields(Some(file))
             == FileFields(xp, Level(xp), if count <= MaxDeclaredMods then count else 0,
                           WorkshopCount(entries), |entries| - WorkshopCount(entries)))
  {
  }

  /** An installed profile shows level 2: 1000 experience is past the first
      threshold and short of the second. */
  lemma InstalledLevel()
    ensures Level(FixedExperience) == 2
  {
    LevelRootUnique(FixedExperience, 1);
  }
}
