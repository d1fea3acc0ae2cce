/** The replacement `profile.sii` that `install_mods` writes: a fixed header in
    which the profile name also stands for the company name, fixed experience and
    money, the declared mod count, one indexed line per mod in list order, and a
    trailer. The trailer is a plain (not formatted) string in the source, so its
    doubled braces `}}` are written as they stand. */
module SiiDocument {
  import opened Text
  import opened Wrappers
  import opened SiiPatterns

  // The literals below are written as concatenations of short pieces on
  // purpose: the read-back proofs split the text at these seams (the
  // experience field is `"experience: " + "1000" + ...`), and the
  // verifier checks that a character is absent from short pieces far more
  // cheaply than from one long literal.
  const ProfileOpen := "SiiNunit\n{\n\n" + "profile_data : " + "profile.data {\n" + " profile_name: \""
  const CompanyOpen := "\"\n company_name: \""
  const NamesClose := "\"\n "
  /** The fixed values: experience 1000, money 500000, then a blank line. */
  const FixedFields := "experience: " + "1000" + ("\n money_account: " + "500000\n \n ")
  const FixedExperience: nat := 1000
  const Trailer := "\n user_data[0]: ff_data\n}}\n\n}}\n"

  /** The header lines that carry the profile name (as profile and company name). */
  function NamesBlock(name: string): string {
    ProfileOpen + name + CompanyOpen + name + NamesClose
  }

  function CountLine(count: nat): string {
    "active_mods: " + NatToString(count) + "\n"
  }

  function Header(name: string, count: nat): string {
    NamesBlock(name) + FixedFields + CountLine(count)
  }

  /** ` active_mods[i]: "mod"` and a newline. */
  function EntryLine(index: nat, modName: string): string {
    " active_mods[" + NatToString(index) + "]: \"" + modName + "\"\n"
  }

  /** The entry lines for `mods`, numbered from `first`. */
  function EntryLines(mods: seq<string>, first: nat): string
    decreases |mods|
  {
    if mods == [] then "" else EntryLine(first, mods[0]) + EntryLines(mods[1..], first + 1)
  }

  function Document(name: string, mods: seq<string>): string {
    Header(name, |mods|) + EntryLines(mods, 0) + Trailer
  }

  /** Adding one more mod appends one more line, numbered after the others. */
  lemma {:induction false} EntryLinesSnoc(mods: seq<string>, m: string, first: nat)
    ensures EntryLines(mods + [m], first) == EntryLines(mods, first) + EntryLine(first + |mods|, m)
    decreases |mods|
  {
    if mods == [] {
      assert [m][1..] == [];
    } else {
      assert (mods + [m])[1..] == mods[1..] + [m];
      EntryLinesSnoc(mods[1..], m, first + 1);
    }
  }

  /** The serialising loop of `install_mods`. */
  method BuildDocument(name: string, mods: seq<string>) returns (doc: string)
    ensures doc == Document(name, mods)
  {
    var header := Header(name, |mods|);
    doc := header;
    for i := 0 to |mods|
      invariant doc == header + EntryLines(mods[..i], 0)
    {
      EntryLinesSnoc(mods[..i], mods[i], 0);
      assert mods[..i + 1] == mods[..i] + [mods[i]];
      doc := doc + EntryLine(i, mods[i]);
    }
    assert mods[..|mods|] == mods;
    doc := doc + Trailer;
  }

  // ---------------------------------------------------------------------------
  // Reading the document back with the patterns of `_read_profile`

  lemma {:induction false} SkipSpaceNone(s: string)
    requires s != [] && !IsSpace(s[0])
    ensures SkipSpace(s) == s
  {
  }

  /** A digit string followed by a non-digit reads as its value. */
  lemma {:induction false} LeadingNumberOf(d: string, rest: string)
    requires d != [] && AllDigits(d)
    requires rest == [] || !IsDigit(rest[0])
    ensures LeadingNumber(d + rest) == Some(ParseDigits(d))
  {
    DigitRunOfDigits(d, rest);
    assert (d + rest)[..|d|] == d;
  }

  lemma {:induction false} FirstIndexAfter(s: string, c: char, rest: string)
    requires c !in s
    ensures FirstIndex(s + [c] + rest, c) == Some(|s|)
  {
    if s != [] {
      assert (s + [c] + rest)[1..] == s[1..] + [c] + rest;
      FirstIndexAfter(s[1..], c, rest);
    }
  }

  /** The name block holds no key that the name itself does not hold. */
  lemma {:induction false} NamesBlockLacks(name: string, key: string, c: char)
    requires c in key && c !in ProfileOpen && c !in CompanyOpen && c !in NamesClose
    requires '"' !in key
    requires !Contains(name, key)
    ensures !Contains(NamesBlock(name), key)
  {
    NotContainsByChar(ProfileOpen, key, c);
    NotContainsByChar(CompanyOpen, key, c);
    NotContainsByChar(NamesClose, key, c);
    var x1 := ProfileOpen + name;
    NotContainsJoin(ProfileOpen, name, key, '"');
    NotContainsJoin(x1, CompanyOpen, key, '"');
    var x2 := x1 + CompanyOpen;
    assert x2[|x2| - 1] == '"';
    NotContainsJoin(x2, name, key, '"');
    NotContainsJoin(x2 + name, NamesClose, key, '"');
  }

  lemma {:induction false} MatchQuotedOf(modName: string, rest: string)
    requires '"' !in modName
    ensures MatchQuoted("\"" + modName + "\"" + rest) == Some(EntryMatch(modName, rest))
  {
    var v := "\"" + modName + "\"" + rest;
    assert v[1..] == modName + ['"'] + rest;
    FirstIndexAfter(modName, '"', rest);
    assert v[1..][..|modName|] == modName;
    assert v[1..][|modName| + 1..] == rest;
  }

  lemma {:induction false} MatchSeparatedOf(v: string)
    requires v != [] && v[0] == '"'
    ensures MatchSeparated(": " + v) == MatchQuoted(v)
  {
    SkipSpaceNone(": " + v);
    assert (": " + v)[1..] == " " + v;
    SkipSpaceNone(v);
    assert SkipSpace(" " + v) == SkipSpace(v);
  }

  lemma {:induction false} MatchIndexedAt(t: string, n: nat, x: string)
    requires DigitRun(t) == n && 0 < n < |t| && t[n] == ']' && t[n + 1..] == x
    ensures MatchIndexed(t) == MatchSeparated(x)
  {
  }

  lemma {:induction false} MatchIndexedOf(d: string, x: string)
    requires d != [] && AllDigits(d)
    ensures MatchIndexed(d + ("]" + x)) == MatchSeparated(x)
  {
    DigitRunOfDigits(d, "]" + x);
    assert (d + ("]" + x))[|d| + 1..] == x;
    MatchIndexedAt(d + ("]" + x), |d|, x);
  }

  lemma {:induction false} MatchEntryOf(y: string)
    ensures MatchEntry(EntryKey + y) == MatchIndexed(y)
  {
    assert (EntryKey + y)[..|EntryKey|] == EntryKey;
    assert (EntryKey + y)[|EntryKey|..] == y;
  }

  /** A character that cannot start the key is stepped over. */
  lemma {:induction false} FindEntriesStep(c: char, s: string)
    requires c != EntryKey[0]
    ensures FindEntries([c] + s) == FindEntries(s)
  {
    assert ([c] + s)[1..] == s;
    assert !StartsWith([c] + s, EntryKey);
  }

  lemma {:induction false} FindEntriesAtMatch(s: string)
    requires MatchEntry(s).Some?
    ensures FindEntries(s) == [MatchEntry(s).value.modName] + FindEntries(MatchEntry(s).value.rest)
  {
  }

  /** An entry line, regrouped the way the pattern reads it. */
  lemma {:induction false} EntryLineShape(index: nat, modName: string, rest: string)
    ensures EntryLine(index, modName) + rest
         == [' '] + (EntryKey + (NatToString(index) + ("]" + (": " + ("\"" + modName + "\"" + ("\n" + rest))))))
  {
  }

  /** One entry line yields its mod, and the scan resumes after the line. */
  lemma {:induction false} FindEntriesLine(index: nat, modName: string, rest: string)
    requires '"' !in modName
    ensures FindEntries(EntryLine(index, modName) + rest) == [modName] + FindEntries(rest)
  {
    var d := NatToString(index);
    var v := "\"" + modName + "\"" + ("\n" + rest);
    var s1 := EntryKey + (d + ("]" + (": " + v)));
    EntryLineShape(index, modName, rest);
    FindEntriesStep(' ', s1);
    MatchEntryOf(d + ("]" + (": " + v)));
    MatchIndexedOf(d, ": " + v);
    MatchSeparatedOf(v);
    MatchQuotedOf(modName, "\n" + rest);
    FindEntriesAtMatch(s1);
    FindEntriesStep('\n', rest);
  }

  lemma {:induction false} EntryLinesCons(mods: seq<string>, first: nat, rest: string)
    requires mods != []
    ensures EntryLines(mods, first) + rest
         == EntryLine(first, mods[0]) + (EntryLines(mods[1..], first + 1) + rest)
  {
  }

  /** Chaining the scan of one line with the scan of what follows it. */
  lemma {:induction false} FindEntriesChain(whole: string, line: string, later: string, rest: string,
                                            first: string, others: seq<string>)
    requires whole == line + later
    requires FindEntries(line + later) == [first] + FindEntries(later)
    requires FindEntries(later) == others + FindEntries(rest)
    ensures FindEntries(whole) == ([first] + others) + FindEntries(rest)
  {
  }

  /** The first line yields the first mod; the rest is the scan of the other lines. */
  lemma {:induction false} FindEntriesLinesStep(mods: seq<string>, first: nat, rest: string)
    requires mods != [] && '"' !in mods[0]
    requires FindEntries(EntryLines(mods[1..], first + 1) + rest) == mods[1..] + FindEntries(rest)
    ensures FindEntries(EntryLines(mods, first) + rest) == mods + FindEntries(rest)
  {
    var later := EntryLines(mods[1..], first + 1) + rest;
    EntryLinesCons(mods, first, rest);
    FindEntriesLine(first, mods[0], later);
    FindEntriesChain(EntryLines(mods, first) + rest, EntryLine(first, mods[0]), later, rest, mods[0], mods[1..]);
    assert [mods[0]] + mods[1..] == mods;
  }

  /** The entry lines yield their mods, in order. */
  lemma {:induction false} FindEntriesLines(mods: seq<string>, first: nat, rest: string)
    requires QuoteFree(mods)
    ensures FindEntries(EntryLines(mods, first) + rest) == mods + FindEntries(rest)
    decreases |mods|
  {
    if mods == [] {
      assert EntryLines(mods, first) + rest == rest;
    } else {
      assert QuoteFree(mods[1..]) by {
        forall k | 0 <= k < |mods| - 1 ensures '"' !in mods[1..][k] {
          assert mods[1..][k] == mods[k + 1];
        }
      }
      FindEntriesLines(mods[1..], first + 1, rest);
      FindEntriesLinesStep(mods, first, rest);
    }
  }

  lemma {:induction false} TrailerHasNoEntries()
    ensures FindEntries(Trailer) == []
  {
    NotContainsByChar(Trailer, EntryKey, 'v');
    FindEntriesWithoutKey(Trailer);
  }

  lemma {:induction false} FixedPartsLack()
    ensures '[' !in FixedFields && 'v' !in FixedFields
  {
  }

  lemma {:induction false} CountLineLacksBracket(count: nat)
    ensures '[' !in CountLine(count)
  {
    var d := NatToString(count);
    forall k | 0 <= k < |d| ensures d[k] != '[' {
      assert IsDigit(d[k]);
    }
  }

  /** The fixed fields and the count line hold no entry key. */
  lemma {:induction false} FieldsLackEntryKey(count: nat)
    ensures !Contains(FixedFields + CountLine(count), EntryKey)
  {
    FixedPartsLack();
    CountLineLacksBracket(count);
    NotContainsByChar(FixedFields + CountLine(count), EntryKey, '[');
  }

  /** The header contains `active_mods[` only if the name does, and ends with a newline. */
  lemma {:induction false} HeaderLacksEntryKey(name: string, count: nat)
    requires !Contains(name, EntryKey)
    ensures !Contains(Header(name, count), EntryKey)
    ensures Header(name, count) != [] && Header(name, count)[|Header(name, count)| - 1] == '\n'
  {
    FieldsLackEntryKey(count);
    NamesBlockLacks(name, EntryKey, 'v');
    NotContainsJoin(NamesBlock(name), FixedFields + CountLine(count), EntryKey, ' ');
    Regroup3(NamesBlock(name), FixedFields, CountLine(count));
  }

  /** The header holds no entry, so the scan starts after it. */
  lemma {:induction false} HeaderSkipped(name: string, count: nat, after: string)
    requires !Contains(name, EntryKey)
    ensures FindEntries(Header(name, count) + after) == FindEntries(after)
  {
    HeaderLacksEntryKey(name, count);
    NoKeyBeforeFromContains(Header(name, count), after, EntryKey);
    FindEntriesSkip(Header(name, count), after);
  }

  /** Round trip: the entry pattern finds exactly the installed mods, in order,
      provided no mod contains a double quote and the profile name does not
      contain `active_mods[`. */
  lemma {:induction false} DocumentEntriesRoundTrip(name: string, mods: seq<string>)
    requires QuoteFree(mods)
    requires !Contains(name, EntryKey)
    ensures FindEntries(Document(name, mods)) == mods
  {
    HeaderSkipped(name, |mods|, EntryLines(mods, 0) + Trailer);
    Regroup3(Header(name, |mods|), EntryLines(mods, 0), Trailer);
    FindEntriesLines(mods, 0, Trailer);
    TrailerHasNoEntries();
    assert mods + [] == mods;
  }

  /** The names block and the fixed fields, the part before the count line. */
  lemma {:induction false} CountPrefixLacks(name: string)
    requires !Contains(name, CountKey)
    ensures !Contains(NamesBlock(name) + FixedFields, CountKey)
    ensures (NamesBlock(name) + FixedFields)[|NamesBlock(name) + FixedFields| - 1] == ' '
  {
    FixedPartsLack();
    NamesBlockLacks(name, CountKey, 'v');
    NotContainsByChar(FixedFields, CountKey, 'v');
    NotContainsJoin(NamesBlock(name), FixedFields, CountKey, ' ');
  }

  lemma {:induction false} DocumentCountShape(name: string, mods: seq<string>)
    ensures Document(name, mods)
         == (NamesBlock(name) + FixedFields)
          + ("active_mods: " + (NatToString(|mods|) + ("\n" + EntryLines(mods, 0) + Trailer)))
  {
  }

  lemma {:induction false} CountValueOf(digits: string, tail: string)
    requires digits != [] && AllDigits(digits)
    requires tail != [] && tail[0] == '\n'
    ensures CountValue(": " + (digits + tail)) == Some(ParseDigits(digits))
  {
    ColonSpaceCount(digits + tail);
    NumberAfterSpace(digits, tail);
  }

  /** After `: ` the count is read from what follows the space. */
  lemma {:induction false} ColonSpaceCount(u: string)
    ensures CountValue(": " + u) == LeadingNumber(SkipSpace(u))
  {
    SkipSpaceNone(": " + u);
    assert (": " + u)[1..] == " " + u;
    assert (" " + u)[1..] == u;
    assert SkipSpace(" " + u) == SkipSpace(u);
  }

  lemma {:induction false} MatchCountOf(digits: string, tail: string)
    requires digits != [] && AllDigits(digits)
    requires tail != [] && tail[0] == '\n'
    ensures MatchCount("active_mods: " + (digits + tail)) == Some(ParseDigits(digits))
  {
    var y := ": " + (digits + tail);
    assert "active_mods: " + (digits + tail) == CountKey + y;
    assert (CountKey + y)[..|CountKey|] == CountKey;
    assert (CountKey + y)[|CountKey|..] == y;
    CountValueOf(digits, tail);
  }

  /** A match at the very front is the one `re.search` reports. */
  lemma {:induction false} FirstMatchHere<T>(s: string, matcher: string -> Option<T>)
    requires matcher(s).Some?
    ensures FirstMatch(s, matcher) == matcher(s)
  {
  }

  /** The declared count reads back as the number of mods, provided the profile
      name does not contain `active_mods`.
      The condition on the name is sufficient, not the weakest: a match that
      starts inside the name needs a colon in the name (the name is followed
      by a quote), and a Windows folder name cannot hold one. */
  lemma {:induction false} DocumentCountRoundTrip(name: string, mods: seq<string>)
    requires !Contains(name, CountKey)
    ensures SearchCount(Document(name, mods)) == Some(|mods|)
  {
    var before := NamesBlock(name) + FixedFields;
    var digits := NatToString(|mods|);
    var tail := "\n" + EntryLines(mods, 0) + Trailer;
    var after := "active_mods: " + (digits + tail);
    CountPrefixLacks(name);
    NoKeyBeforeFromContains(before, after, CountKey);
    DocumentCountShape(name, mods);
    SearchCountSkip(before, after);
    MatchCountOf(digits, tail);
    ParseNatToString(|mods|);
    FirstMatchHere(after, MatchCount);
  }

  lemma {:induction false} Regroup3(a: string, b: string, c: string)
    ensures a + b + c == a + (b + c)
  {
  }

  /** Regrouping seven strings. */
  lemma {:induction false} Regroup(a: string, b: string, c: string, d: string, e: string, f: string, g: string)
    ensures a + (b + c + d) + e + f + g == a + (b + (c + (d + e + f + g)))
  {
  }

  lemma {:induction false} DocumentExperienceShape(name: string, mods: seq<string>)
    ensures Document(name, mods)
         == NamesBlock(name)
          + ("experience: " + ("1000" + (("\n money_account: " + "500000\n \n ") + CountLine(|mods|) + EntryLines(mods, 0) + Trailer)))
  {
    Regroup(NamesBlock(name), "experience: ", "1000", "\n money_account: " + "500000\n \n ",
            CountLine(|mods|), EntryLines(mods, 0), Trailer);
  }

  /** After `: ` the number is read from what follows the space. */
  lemma {:induction false} ColonSpaceValue(u: string)
    ensures ExperienceValue(": " + u) == LeadingNumber(SkipSpace(u))
  {
    var t := ": " + u;
    assert t[0] == ':';
    assert FirstIndex(t, ':') == Some(0);
    assert t[1..] == " " + u;
    assert (" " + u)[1..] == u;
    assert SkipSpace(" " + u) == SkipSpace(u);
  }

  lemma {:induction false} ExperienceValueOf(digits: string, tail: string)
    requires digits != [] && AllDigits(digits)
    requires tail != [] && tail[0] == '\n'
    ensures ExperienceValue(": " + (digits + tail)) == Some(ParseDigits(digits))
  {
    ColonSpaceValue(digits + tail);
    NumberAfterSpace(digits, tail);
  }

  /** A number with no whitespace before it reads as its value. */
  lemma {:induction false} NumberAfterSpace(digits: string, rest: string)
    requires digits != [] && AllDigits(digits)
    requires rest == [] || !IsDigit(rest[0])
    ensures LeadingNumber(SkipSpace(digits + rest)) == Some(ParseDigits(digits))
  {
    assert (digits + rest)[0] == digits[0];
    SkipSpaceNone(digits + rest);
    LeadingNumberOf(digits, rest);
  }

  lemma {:induction false} MatchExperienceOf(digits: string, tail: string)
    requires digits != [] && AllDigits(digits)
    requires tail != [] && tail[0] == '\n'
    ensures MatchExperience("experience: " + (digits + tail)) == Some(ParseDigits(digits))
  {
    var y := ": " + (digits + tail);
    assert "experience: " + (digits + tail) == ExperienceKey + y;
    assert (ExperienceKey + y)[..|ExperienceKey|] == ExperienceKey;
    assert (ExperienceKey + y)[|ExperienceKey|..] == y;
    ExperienceValueOf(digits, tail);
  }

  lemma {:induction false} ParseThousand()
    ensures ParseDigits("1000") == FixedExperience
  {
    assert ParseDigits("1") == 1 by { assert "1"[..0] == ""; }
    assert ParseDigits("10") == 10 by { assert "10"[..1] == "1"; }
    assert ParseDigits("100") == 100 by { assert "100"[..2] == "10"; }
    assert "1000"[..3] == "100";
  }

  lemma {:induction false} ExperienceFieldReads(tail: string)
    requires tail != [] && tail[0] == '\n'
    ensures SearchExperience("experience: " + ("1000" + tail)) == Some(FixedExperience)
  {
    var after := "experience: " + ("1000" + tail);
    MatchExperienceOf("1000", tail);
    ParseThousand();
    FirstMatchHere(after, MatchExperience);
  }

  /** What follows the names block, from the experience field on. */
  function ExperienceOnward(mods: seq<string>): string {
    "experience: " + ("1000" + ExperienceTail(mods))
  }

  function ExperienceTail(mods: seq<string>): string {
    ("\n money_account: " + "500000\n \n ") + CountLine(|mods|) + EntryLines(mods, 0) + Trailer
  }

  /** Nothing before the experience field matches its pattern. */
  lemma {:induction false} NamesBlockSkipped(name: string, mods: seq<string>)
    requires !Contains(name, ExperienceKey)
    ensures SearchExperience(Document(name, mods)) == SearchExperience(ExperienceOnward(mods))
  {
    var before := NamesBlock(name);
    var after := ExperienceOnward(mods);
    NamesBlockLacks(name, ExperienceKey, 'x');
    NoKeyBeforeFromContains(before, after, ExperienceKey);
    DocumentExperienceShape(name, mods);
    SearchExperienceSkip(before, after);
  }

  /** The experience reads back as the fixed 1000, provided the profile name does
      not contain `experience`.
      The condition on the name is sufficient, not the weakest: a match that
      starts inside the name needs a colon in the name, which a Windows
      folder name cannot hold, or runs on to the experience field and reads
      the same 1000. */
  lemma {:induction false} DocumentExperienceRoundTrip(name: string, mods: seq<string>)
    requires !Contains(name, ExperienceKey)
    ensures SearchExperience(Document(name, mods)) == Some(FixedExperience)
  {
    NamesBlockSkipped(name, mods);
    ExperienceFieldReads(ExperienceTail(mods));
  }
}
