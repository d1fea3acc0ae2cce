/** The three regular expressions `_read_profile` applies to the decoded text,
    written out as matchers. Each pattern is deterministic once written out:
    `\d+` is followed by a non-digit (`]` or the end of the match), `\s*` by a
    non-space (`:` or `"` or a digit) and `[^:]*` / `[^"]*` by the very character
    they exclude, so backtracking never finds a second way to match and the
    greedy reading below is the only one. */
module SiiPatterns {
  import opened Text
  import opened Wrappers

  const ExperienceKey := "experience"
  const CountKey := "active_mods"
  const EntryKey := "active_mods["

  /** The position of the first `c` in `s`. */
  function FirstIndex(s: string, c: char): (r: Option<nat>)
    ensures r.Some? ==> r.value < |s| && s[r.value] == c && c !in s[..r.value]
    ensures r.None? ==> c !in s
  {
    if s == [] then None
    else if s[0] == c then Some(0)
    else
      match FirstIndex(s[1..], c)
      case None => None
      case Some(i) =>
        assert s[..i + 1] == [s[0]] + s[1..][..i];
        Some(i + 1)
  }

  /** `(\d+)` at the front of `s`, read as a number. */
  function LeadingNumber(s: string): (r: Option<nat>)
    ensures r.Some? <==> s != [] && IsDigit(s[0])
  {
    var d := DigitRun(s);
    if d == 0 then None else Some(ParseDigits(s[..d]))
  }

  // ---------------------------------------------------------------------------
  // re.search: the first start position, left to right, at which a match succeeds

  function FirstMatch<T>(s: string, matcher: string -> Option<T>): Option<T>
    decreases |s|
  {
    var m := matcher(s);
    if m.Some? || s == [] then m else FirstMatch(s[1..], matcher)
  }

  /** A match at position `i` with none before it is the one found. */
  lemma {:induction false} FirstMatchFindsFirst<T>(s: string, matcher: string -> Option<T>, i: nat)
    requires i <= |s| && matcher(s[i..]).Some?
    requires forall j :: 0 <= j < i ==> matcher(s[j..]).None?
    ensures FirstMatch(s, matcher) == matcher(s[i..])
    decreases i
  {
    assert s[0..] == s;
    if i > 0 {
      forall j | 0 <= j < i - 1 ensures matcher(s[1..][j..]).None? {
        assert s[1..][j..] == s[j + 1..];
      }
      assert s[1..][i - 1..] == s[i..];
      FirstMatchFindsFirst(s[1..], matcher, i - 1);
    }
  }

  /** With no match at any position there is no result. */
  lemma {:induction false} FirstMatchNone<T>(s: string, matcher: string -> Option<T>)
    requires forall i :: 0 <= i <= |s| ==> matcher(s[i..]).None?
    ensures FirstMatch(s, matcher).None?
    decreases |s|
  {
    assert s[0..] == s;
    if s != [] {
      forall j | 0 <= j <= |s| - 1 ensures matcher(s[1..][j..]).None? {
        assert s[1..][j..] == s[j + 1..];
      }
      FirstMatchNone(s[1..], matcher);
    }
  }

  /** A prefix in which no match starts is skipped. */
  lemma {:induction false} FirstMatchSkip<T>(a: string, b: string, matcher: string -> Option<T>)
    requires forall i :: 0 <= i < |a| ==> matcher((a + b)[i..]).None?
    ensures FirstMatch(a + b, matcher) == FirstMatch(b, matcher)
  {
    if a != [] {
      assert (a + b)[0..] == a + b;
      assert (a + b)[1..] == a[1..] + b;
      forall i | 0 <= i < |a[1..]| ensures matcher((a[1..] + b)[i..]).None? {
        assert (a[1..] + b)[i..] == (a + b)[i + 1..];
      }
      FirstMatchSkip(a[1..], b, matcher);
    } else {
      assert a + b == b;
    }
  }

  // ---------------------------------------------------------------------------
  // re.search(r'experience[^:]*:\s*(\d+)', content)

  /** The pattern tried at the front of `s`: the key, anything up to the first
      colon, optional whitespace, a number. */
  function MatchExperience(s: string): Option<nat> {
    if !StartsWith(s, ExperienceKey) then None else ExperienceValue(s[|ExperienceKey|..])
  }

  /** `[^:]*:\s*(\d+)` after the key. */
  function ExperienceValue(t: string): Option<nat> {
    match FirstIndex(t, ':')
    case None => None
    case Some(j) => LeadingNumber(SkipSpace(t[j + 1..]))
  }

  function SearchExperience(s: string): Option<nat> {
    FirstMatch(s, MatchExperience)
  }

  // ---------------------------------------------------------------------------
  // re.search(r'active_mods\s*:\s*(\d+)', content)

  function MatchCount(s: string): Option<nat> {
    if !StartsWith(s, CountKey) then None else CountValue(s[|CountKey|..])
  }

  /** `\s*:\s*(\d+)` after the key. */
  function CountValue(t: string): Option<nat> {
    var u := SkipSpace(t);
    if u == [] || u[0] != ':' then None else LeadingNumber(SkipSpace(u[1..]))
  }

  function SearchCount(s: string): Option<nat> {
    FirstMatch(s, MatchCount)
  }

  // ---------------------------------------------------------------------------
  // re.findall(r'active_mods\[\d+\]\s*:\s*"([^"]*)"', content)

  /** A match of the entry pattern: the quoted mod text and what follows the
      closing quote. */
  datatype EntryMatch = EntryMatch(modName: string, rest: string)

  function MatchEntry(s: string): (r: Option<EntryMatch>)
    ensures r.Some? ==> StartsWith(s, EntryKey) && '"' !in r.value.modName && |r.value.rest| < |s|
  {
    if !StartsWith(s, EntryKey) then None else MatchIndexed(s[|EntryKey|..])
  }

  /** `\d+\]` and then the rest of the entry pattern. */
  function MatchIndexed(t: string): (r: Option<EntryMatch>)
    ensures r.Some? ==> '"' !in r.value.modName && |r.value.rest| < |t|
  {
    var d := DigitRun(t);
    if d == 0 || d == |t| || t[d] != ']' then None else MatchSeparated(t[d + 1..])
  }

  /** `\s*:\s*` and then the quoted value. */
  function MatchSeparated(x: string): (r: Option<EntryMatch>)
    ensures r.Some? ==> '"' !in r.value.modName && |r.value.rest| < |x|
  {
    var u := SkipSpace(x);
    if u == [] || u[0] != ':' then None else MatchQuoted(SkipSpace(u[1..]))
  }

  /** `"([^"]*)"`: the text up to the next double quote. */
  function MatchQuoted(v: string): (r: Option<EntryMatch>)
    ensures r.Some? ==> '"' !in r.value.modName && |r.value.rest| < |v|
  {
    if v == [] || v[0] != '"' then None
    else
      var w := v[1..];
      match FirstIndex(w, '"')
      case None => None
      case Some(q) => Some(EntryMatch(w[..q], w[q + 1..]))
  }

  /** All non-overlapping matches, left to right; the scan resumes where the
      previous match ended. */
  function FindEntries(s: string): seq<string>
    decreases |s|
  {
    if s == [] then []
    else
      var m := MatchEntry(s);
      if m.Some? then [m.value.modName] + FindEntries(m.value.rest)
      else FindEntries(s[1..])
  }

  predicate QuoteFree(entries: seq<string>) {
    forall k :: 0 <= k < |entries| ==> '"' !in entries[k]
  }

  lemma QuoteFreeCons(name: string, entries: seq<string>)
    requires '"' !in name && QuoteFree(entries)
    ensures QuoteFree([name] + entries)
  {
  }

  /** No entry found contains a double quote: `[^"]*` stops at the first one. */
  lemma {:induction false} EntriesHaveNoQuote(s: string)
    ensures QuoteFree(FindEntries(s))
    decreases |s|
  {
    if s != [] {
      var m := MatchEntry(s);
      if m.Some? {
        var name := m.value.modName;
        var rest := m.value.rest;
        EntriesHaveNoQuote(rest);
        assert FindEntries(s) == [name] + FindEntries(rest);
        QuoteFreeCons(name, FindEntries(rest));
      } else {
        EntriesHaveNoQuote(s[1..]);
        assert FindEntries(s) == FindEntries(s[1..]);
      }
    }
  }

  /** Text without the entry key holds no entries. */
  lemma {:induction false} FindEntriesWithoutKey(s: string)
    requires !Contains(s, EntryKey)
    ensures FindEntries(s) == []
  {
    if s != [] {
      assert !StartsWith(s[0..], EntryKey);
      assert s[0..] == s;
      forall i | 0 <= i <= |s[1..]| ensures !StartsWith(s[1..][i..], EntryKey) {
        assert s[1..][i..] == s[i + 1..];
      }
      FindEntriesWithoutKey(s[1..]);
    }
  }

  /** A declared count is only ever read where the text mentions `active_mods`. */
  lemma {:induction false} SearchCountFound(s: string)
    requires SearchCount(s).Some?
    ensures Contains(s, CountKey)
    decreases |s|
  {
    if MatchCount(s).Some? {
      assert s[0..] == s;
    } else {
      SearchCountFound(s[1..]);
      var i :| 0 <= i <= |s[1..]| && StartsWith(s[1..][i..], CountKey);
      assert s[1..][i..] == s[i + 1..];
    }
  }

  // ---------------------------------------------------------------------------
  // Skipping a prefix in which no match can start

  /** No suffix of `s` that starts inside its first `n` characters begins with `key`. */
  predicate NoKeyBefore(s: string, n: nat, key: string)
    requires n <= |s|
  {
    forall i :: 0 <= i < n ==> !StartsWith(s[i..], key)
  }

  lemma SearchExperienceSkip(a: string, b: string)
    requires NoKeyBefore(a + b, |a|, ExperienceKey)
    ensures SearchExperience(a + b) == SearchExperience(b)
  {
    FirstMatchSkip(a, b, MatchExperience);
  }

  lemma SearchCountSkip(a: string, b: string)
    requires NoKeyBefore(a + b, |a|, CountKey)
    ensures SearchCount(a + b) == SearchCount(b)
  {
    FirstMatchSkip(a, b, MatchCount);
  }

  lemma {:induction false} FindEntriesSkip(a: string, b: string)
    requires NoKeyBefore(a + b, |a|, EntryKey)
    ensures FindEntries(a + b) == FindEntries(b)
  {
    if a != [] {
      assert (a + b)[0..] == a + b;
      assert (a + b)[1..] == a[1..] + b;
      forall i | 0 <= i < |a[1..]| ensures !StartsWith((a[1..] + b)[i..], EntryKey) {
        assert (a[1..] + b)[i..] == (a + b)[i + 1..];
      }
      FindEntriesSkip(a[1..], b);
    } else {
      assert a + b == b;
    }
  }

  /** When `a` holds no occurrence of `key` and ends with a character `key`
      lacks, no occurrence of `key` can start inside `a`, whatever follows. */
  lemma {:induction false} NoKeyBeforeFromContains(a: string, b: string, key: string)
    requires !Contains(a, key)
    requires a != [] && a[|a| - 1] !in key
    ensures NoKeyBefore(a + b, |a|, key)
  {
    forall i | 0 <= i < |a| ensures !StartsWith((a + b)[i..], key) {
      assert !StartsWith(a[i..], key);
      if |key| <= |a| - i {
        assert (a + b)[i..][..|key|] == a[i..][..|key|];
      } else if |key| <= |a + b| - i {
        assert (a + b)[i..][..|key|][|a| - 1 - i] == a[|a| - 1];
        assert key[|a| - 1 - i] in key;
      }
    }
  }
}
