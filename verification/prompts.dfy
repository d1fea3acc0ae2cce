/** The pure rules behind the console prompts: how a typed profile choice is
    checked, when a yes/no answer counts as yes, and how a mod is shown in the
    package summary. */
module Prompts {
  import opened Text
  import opened Wrappers

  // ---------------------------------------------------------------------------
  // str.strip()

  predicate AllSpace(s: string) {
    forall i :: 0 <= i < |s| ==> IsSpace(s[i])
  }

  /** `s` without its trailing whitespace. */
  function StripEnd(s: string): (r: string)
    ensures |r| <= |s| && r == s[..|r|]
    ensures r == [] || !IsSpace(r[|r| - 1])
    ensures AllSpace(s[|r|..])
  {
    if s == [] || !IsSpace(s[|s| - 1]) then s else StripEnd(s[..|s| - 1])
  }

  /** Python's `str.strip()`: whitespace removed from both ends. */
  function Strip(s: string): string {
    StripEnd(SkipSpace(s))
  }

  lemma {:induction false} SkipSpaceOver(pre: string, s: string)
    requires AllSpace(pre) && s != [] && !IsSpace(s[0])
    ensures SkipSpace(pre + s) == s
  {
    assert (pre + s)[|pre|..] == s;
  }

  lemma {:induction false} StripEndOver(s: string, post: string)
    requires AllSpace(post) && s != [] && !IsSpace(s[|s| - 1])
    ensures StripEnd(s + post) == s
  {
    assert (s + post)[..|s|] == s;
  }

  /** Stripping gives back a word that neither starts nor ends with
      whitespace, whatever whitespace surrounds it. */
  lemma {:induction false} StripSurrounded(pre: string, word: string, post: string)
    requires AllSpace(pre) && AllSpace(post)
    requires word != [] && !IsSpace(word[0]) && !IsSpace(word[|word| - 1])
    ensures Strip(pre + word + post) == word
  {
    assert pre + word + post == pre + (word + post);
    SkipSpaceOver(pre, word + post);
    StripEndOver(word, post);
  }

  // ---------------------------------------------------------------------------
  // int()

  /** Python's `int()` on an already stripped string: an optional sign followed
      by decimal digits. */
  function ParseInt(s: string): Option<int> {
    if s != [] && (s[0] == '+' || s[0] == '-') then
      var digits := s[1..];
      if digits != [] && AllDigits(digits) then
        var magnitude: int := ParseDigits(digits);
        Some(if s[0] == '-' then -magnitude else magnitude)
      else None
    else if s != [] && AllDigits(s) then Some(ParseDigits(s))
    else None
  }

  /** A number written out in decimal reads back as itself, with either sign. */
  lemma ParseIntRoundTrip(n: nat)
    ensures ParseInt(NatToString(n)) == Some(n)
    ensures ParseInt("+" + NatToString(n)) == Some(n)
    ensures ParseInt("-" + NatToString(n)) == Some(-(n as int))
  {
    ParseNatToString(n);
    assert ("+" + NatToString(n))[1..] == NatToString(n);
    assert ("-" + NatToString(n))[1..] == NatToString(n);
  }

  // ---------------------------------------------------------------------------
  // The profile choice

  /** What one typed answer to "Select profile (1-N) or 0 to cancel" means. */
  datatype Selection = Cancel | Chosen(index: nat) | OutOfRange | NotANumber

  /** "0" cancels; otherwise the number, counted from 1, must name a profile. */
  function CheckSelection(line: string, count: nat): Selection {
    var choice := Strip(line);
    if choice == "0" then Cancel
    else
      match ParseInt(choice)
      case None => NotANumber
      case Some(n) => if 0 <= n - 1 < count then Chosen(n - 1) else OutOfRange
  }

  /** A chosen index names one of the listed profiles, and it is the typed
      number less one; only a literal "0" cancels. */
  lemma SelectionSound(line: string, count: nat)
    ensures CheckSelection(line, count).Chosen? ==>
              CheckSelection(line, count).index < count
              && ParseInt(Strip(line)) == Some(CheckSelection(line, count).index + 1)
    ensures CheckSelection(line, count) == Cancel <==> Strip(line) == "0"
    ensures CheckSelection(line, count) == NotANumber <==> Strip(line) != "0" && ParseInt(Strip(line)).None?
  {
  }

  /** Every listed profile can be chosen by typing its number, with any
      surrounding whitespace. */
  lemma SelectionComplete(pre: string, n: nat, post: string, count: nat)
    requires AllSpace(pre) && AllSpace(post)
    requires 1 <= n <= count
    ensures CheckSelection(pre + NatToString(n) + post, count) == Chosen(n - 1)
  {
    var word := NatToString(n);
    StripSurrounded(pre, word, post);
    ParseIntRoundTrip(n);
    if word == "0" {
      assert ParseDigits(word) == 0;
    }
  }

  /** Zero written any other way is an index out of range, not a cancel. */
  lemma ZeroSpellings(count: nat)
    ensures CheckSelection("00", count) == OutOfRange
    ensures CheckSelection("-0", count) == OutOfRange
  {
    StripSurrounded([], "00", []);
    StripSurrounded([], "-0", []);
    assert [] + "00" + [] == "00" && [] + "-0" + [] == "-0";
    ParseIntRoundTrip(0);
    assert "-0" == "-" + NatToString(0);
    assert ParseDigits("00") == 10 * ParseDigits("0") + 0;
  }

  /** `.strip().lower() == 'y'`: only a lone y, in either case, means yes. */
  predicate Confirmed(line: string) {
    var answer := Strip(line);
    answer == "y" || answer == "Y"
  }

  /** A y or Y typed with any surrounding whitespace confirms. */
  lemma ConfirmedAnswers(pre: string, post: string)
    requires AllSpace(pre) && AllSpace(post)
    ensures Confirmed(pre + "y" + post) && Confirmed(pre + "Y" + post)
    ensures !Confirmed(pre + "yes" + post)
  {
    StripSurrounded(pre, "y", post);
    StripSurrounded(pre, "Y", post);
    StripSurrounded(pre, "yes", post);
  }

  // ---------------------------------------------------------------------------
  // The mod display name

  /** `mod.split('|')[-1]`: the longest end of `mod` without a bar. */
  function LastSegment(mod: string): (segment: string)
    ensures '|' !in segment
    ensures |segment| <= |mod| && segment == mod[|mod| - |segment|..]
    ensures |segment| < |mod| ==> mod[|mod| - |segment| - 1] == '|'
  {
    if mod == [] || mod[|mod| - 1] == '|' then []
    else LastSegment(mod[..|mod| - 1]) + [mod[|mod| - 1]]
  }

  const MaxDisplayLength: nat := 50
  const KeptLength: nat := 47
  const Ellipsis := "..."

  /** The name shown for a mod in the package summary. */
  function ModDisplay(mod: string): string {
    var segment := LastSegment(mod);
    if |segment| > MaxDisplayLength then segment[..KeptLength] + Ellipsis else segment
  }

  /** The text after the last bar is what is shown of a `package|name` entry. */
  lemma {:induction false} LastSegmentAfterBar(package: string, name: string)
    requires '|' !in name
    ensures LastSegment(package + "|" + name) == name
  {
    var s := package + "|" + name;
    var r := LastSegment(s);
    assert s[|s| - |name| - 1] == '|';
    if |r| < |name| {
      assert false;
    } else if |r| > |name| {
      assert false;
    }
    assert s[|s| - |name|..] == name;
  }

  /** A shown name is at most 50 characters and holds no bar; a short name
      without a bar is shown as it is; a long one keeps its first 47
      characters and ends in "...". */
  lemma ModDisplayBounds(mod: string)
    ensures |ModDisplay(mod)| <= MaxDisplayLength && '|' !in ModDisplay(mod)
    ensures '|' !in mod && |mod| <= MaxDisplayLength ==> ModDisplay(mod) == mod
    ensures |LastSegment(mod)| > MaxDisplayLength ==>
              |ModDisplay(mod)| == MaxDisplayLength
              && ModDisplay(mod)[..KeptLength] == LastSegment(mod)[..KeptLength]
              && ModDisplay(mod)[KeptLength..] == Ellipsis
  {
  }

  /** The package summary lists the first five mods, and only when there are
      at least five. */
  function SampleDisplays(mods: seq<string>): (shown: seq<string>)
    ensures |shown| == (if |mods| >= 5 then 5 else 0)
    ensures forall i :: 0 <= i < |shown| ==> shown[i] == ModDisplay(mods[i])
  {
    if |mods| < 5 then [] else seq(5, i requires 0 <= i < 5 => ModDisplay(mods[i]))
  }
}
