/** The best-effort decoder for `profile.sii` files (`_decode_sii_simple`): the
    bytes are read as UTF-8, dropping what does not decode, and that text is kept
    when it mentions one of the profile's marker keys; otherwise the decoder falls
    back to the runs of printable ASCII in the raw bytes. */
module SiiDecode {
  import opened Text

  /** A byte, 0..255. */
  newtype byte = x: int | 0 <= x < 0x100

  /** What reading a file yields: its bytes, or a failure (missing, permission). */
  datatype ReadOutcome = ReadOk(data: seq<byte>) | ReadFailed

  /** `chr(b)` for a byte. */
  function ByteChar(b: byte): char {
    (b as int) as char
  }

  /** The characters `chr(b)` of the bytes, one per byte. */
  function Chars(data: seq<byte>): (r: string)
    ensures |r| == |data|
    ensures forall i :: 0 <= i < |data| ==> r[i] == ByteChar(data[i])
  {
    seq(|data|, i requires 0 <= i < |data| => ByteChar(data[i]))
  }

  // ---------------------------------------------------------------------------
  // UTF-8 decoding with errors='ignore'

  predicate InRange(b: byte, lo: int, hi: int) {
    lo <= b as int <= hi
  }

  predicate IsContinuation(b: byte) {
    InRange(b, 0x80, 0xBF)
  }

  /** The length of the well-formed UTF-8 sequence at the front of `data`, or 0
      when the front byte does not start one (Unicode's table of well-formed
      byte sequences: no overlong forms, no surrogates, nothing above U+10FFFF). */
  function SequenceLength(data: seq<byte>): (n: nat)
    requires data != []
    ensures n <= |data| && n <= 4
    ensures n == 1 <==> data[0] as int < 0x80
  {
    var b0 := data[0] as int;
    if b0 < 0x80 then 1
    else if 0xC2 <= b0 <= 0xDF then
      if |data| >= 2 && IsContinuation(data[1]) then 2 else 0
    else if 0xE0 <= b0 <= 0xEF then
      var lo := if b0 == 0xE0 then 0xA0 else 0x80;
      var hi := if b0 == 0xED then 0x9F else 0xBF;
      if |data| >= 3 && InRange(data[1], lo, hi) && IsContinuation(data[2]) then 3 else 0
    else if 0xF0 <= b0 <= 0xF4 then
      var lo := if b0 == 0xF0 then 0x90 else 0x80;
      var hi := if b0 == 0xF4 then 0x8F else 0xBF;
      if |data| >= 4 && InRange(data[1], lo, hi) && IsContinuation(data[2]) && IsContinuation(data[3])
      then 4 else 0
    else 0
  }

  /** The scalar value encoded by the well-formed sequence at the front of `data`. */
  function ScalarValue(data: seq<byte>): char
    requires data != [] && SequenceLength(data) > 0
  {
    var n := SequenceLength(data);
    var b0 := data[0] as int;
    if n == 1 then b0 as char
    else if n == 2 then ((b0 - 0xC0) * 0x40 + (data[1] as int - 0x80)) as char
    else if n == 3 then
      ((b0 - 0xE0) * 0x1000 + (data[1] as int - 0x80) * 0x40 + (data[2] as int - 0x80)) as char
    else
      ((b0 - 0xF0) * 0x40000 + (data[1] as int - 0x80) * 0x1000
       + (data[2] as int - 0x80) * 0x40 + (data[3] as int - 0x80)) as char
  }

  /** `data.decode('utf-8', errors='ignore')`: well-formed sequences become their
      characters and every byte that does not start one is dropped. Dropping one
      byte at a time gives the same text as Python's dropping of a maximal
      ill-formed prefix, because the bytes after a lead byte in such a prefix are
      continuation bytes, which never start a sequence themselves. */
  function Utf8Ignore(data: seq<byte>): string
    decreases |data|
  {
    if data == [] then ""
    else
      var n := SequenceLength(data);
      if n == 0 then Utf8Ignore(data[1..]) else [ScalarValue(data)] + Utf8Ignore(data[n..])
  }

  predicate IsAscii(data: seq<byte>) {
    forall i :: 0 <= i < |data| ==> data[i] as int < 0x80
  }

  /** ASCII bytes decode to the characters with the same codes. */
  lemma {:induction false} Utf8IgnoreAscii(data: seq<byte>)
    requires IsAscii(data)
    ensures Utf8Ignore(data) == Chars(data)
  {
    if data != [] {
      Utf8IgnoreAscii(data[1..]);
      assert Chars(data) == [ByteChar(data[0])] + Chars(data[1..]);
    }
  }

  /** `str.encode('utf-8')` for one character: one to four bytes, the low six
      bits of the value in each continuation byte and the rest in the lead byte. */
  function EncodeChar(c: char): (bytes: seq<byte>)
    ensures 1 <= |bytes| <= 4
  {
    var v := c as int;
    if v < 0x80 then [v as byte]
    else
      var low := v % 0x40;
      var v1 := v / 0x40;
      if v < 0x800 then [(0xC0 + v1) as byte, (0x80 + low) as byte]
      else
        var mid := v1 % 0x40;
        var v2 := v1 / 0x40;
        if v < 0x10000 then [(0xE0 + v2) as byte, (0x80 + mid) as byte, (0x80 + low) as byte]
        else [(0xF0 + v2 / 0x40) as byte, (0x80 + v2 % 0x40) as byte, (0x80 + mid) as byte, (0x80 + low) as byte]
  }

  /** `text.encode('utf-8')`: what a file opened for writing with UTF-8 holds. */
  function Utf8Encode(text: string): seq<byte>
    decreases |text|
  {
    if text == [] then [] else EncodeChar(text[0]) + Utf8Encode(text[1..])
  }

  lemma DecodeOneByte(c: char, rest: seq<byte>)
    requires c as int < 0x80
    ensures var data := EncodeChar(c) + rest;
      SequenceLength(data) == 1 && ScalarValue(data) == c
  {
  }

  lemma DecodeTwoBytes(c: char, rest: seq<byte>)
    requires 0x80 <= c as int < 0x800
    ensures var data := EncodeChar(c) + rest;
      SequenceLength(data) == 2 && ScalarValue(data) == c
  {
    var v := c as int;
    var data := EncodeChar(c) + rest;
    assert data[0] as int == 0xC0 + v / 0x40;
    assert data[1] as int == 0x80 + v % 0x40;
  }

  lemma DecodeThreeBytes(c: char, rest: seq<byte>)
    requires 0x800 <= c as int < 0x10000
    ensures var data := EncodeChar(c) + rest;
      SequenceLength(data) == 3 && ScalarValue(data) == c
  {
    var v := c as int;
    var v1 := v / 0x40;
    var data := EncodeChar(c) + rest;
    assert data[0] as int == 0xE0 + v1 / 0x40;
    assert data[1] as int == 0x80 + v1 % 0x40;
    assert data[2] as int == 0x80 + v % 0x40;
  }

  /** The lead digit of a four-byte scalar value and the bounds the second byte
      takes from it. */
  lemma FourByteDigits(v: int)
    requires 0x10000 <= v < 0x110000
    ensures var v2 := v / 0x40 / 0x40;
      0 <= v2 / 0x40 <= 4
      && (v2 / 0x40 == 0 ==> v2 % 0x40 >= 0x10)
      && (v2 / 0x40 == 4 ==> v2 % 0x40 <= 0x0F)
  {
  }

  lemma DecodeFourBytes(c: char, rest: seq<byte>)
    requires 0x10000 <= c as int
    ensures var data := EncodeChar(c) + rest;
      SequenceLength(data) == 4 && ScalarValue(data) == c
  {
    var v := c as int;
    var v1 := v / 0x40;
    var v2 := v1 / 0x40;
    FourByteDigits(v);
    var data := EncodeChar(c) + rest;
    assert data[0] as int == 0xF0 + v2 / 0x40;
    assert data[1] as int == 0x80 + v2 % 0x40;
    assert data[2] as int == 0x80 + v1 % 0x40;
    assert data[3] as int == 0x80 + v % 0x40;
  }

  /** The encoding of a character is one well-formed sequence that decodes to it. */
  lemma DecodeEncodedChar(c: char, rest: seq<byte>)
    ensures var data := EncodeChar(c) + rest;
      SequenceLength(data) == |EncodeChar(c)| && ScalarValue(data) == c
  {
    var v := c as int;
    if v < 0x80 {
      DecodeOneByte(c, rest);
    } else if v < 0x800 {
      DecodeTwoBytes(c, rest);
    } else if v < 0x10000 {
      DecodeThreeBytes(c, rest);
    } else {
      DecodeFourBytes(c, rest);
    }
  }

  /** Decoding what was encoded gives the text back: nothing is dropped. */
  lemma {:induction false} Utf8RoundTrip(text: string)
    ensures Utf8Ignore(Utf8Encode(text)) == text
    decreases |text|
  {
    if text != [] {
      var head := EncodeChar(text[0]);
      var rest := Utf8Encode(text[1..]);
      DecodeEncodedChar(text[0], rest);
      assert (head + rest)[|head|..] == rest;
      Utf8RoundTrip(text[1..]);
      assert text == [text[0]] + text[1..];
    }
  }

  // ---------------------------------------------------------------------------
  // Printable-run fallback

  predicate IsPrintable(b: byte) {
    32 <= b <= 126
  }

  predicate IsPrintableChar(c: char) {
    32 <= c as int <= 126
  }

  predicate AllPrintableChars(s: string) {
    forall i :: 0 <= i < |s| ==> IsPrintableChar(s[i])
  }

  /** A run of printable bytes is kept only when it is longer than this. */
  const MinRunLength: nat := 5

  /** The bytes split at every non-printable byte, as Python's `split` would:
      one run (possibly empty) before each separator and one after the last. */
  function Runs(data: seq<byte>): (r: seq<string>)
    ensures |r| >= 1
  {
    if data == [] then [""]
    else
      var prev := Runs(data[..|data| - 1]);
      var b := data[|data| - 1];
      if IsPrintable(b) then prev[..|prev| - 1] + [prev[|prev| - 1] + [ByteChar(b)]]
      else prev + [""]
  }

  /** The runs longer than `MinRunLength`, in order. */
  function LongRuns(runs: seq<string>): seq<string> {
    if runs == [] then []
    else
      var last := runs[|runs| - 1];
      LongRuns(runs[..|runs| - 1]) + (if |last| > MinRunLength then [last] else [])
  }

  /** `' '.join(parts)`. */
  function JoinSpace(parts: seq<string>): string {
    if parts == [] then ""
    else if |parts| == 1 then parts[0]
    else JoinSpace(parts[..|parts| - 1]) + " " + parts[|parts| - 1]
  }

  /** The fallback text: the long printable runs, joined by single spaces. */
  function PrintableText(data: seq<byte>): string {
    JoinSpace(LongRuns(Runs(data)))
  }

  /** The byte loop of the fallback: `current` collects the printable run being
      read, a non-printable byte closes it (keeping it when long enough), and a
      run still open at the end is kept under the same rule. */
  method ExtractPrintableText(data: seq<byte>) returns (text: string)
    ensures text == PrintableText(data)
  {
    var parts: seq<string> := [];
    var current: string := "";
    for i := 0 to |data|
      invariant var runs := Runs(data[..i]);
        current == runs[|runs| - 1] && parts == LongRuns(runs[..|runs| - 1])
    {
      assert data[..i + 1][..i] == data[..i];
      var b := data[i];
      if IsPrintable(b) {
        current := current + [ByteChar(b)];
      } else {
        if |current| > MinRunLength {
          parts := parts + [current];
        }
        current := "";
      }
    }
    assert data[..|data|] == data;
    ghost var runs := Runs(data);
    assert current == runs[|runs| - 1];
    assert LongRuns(runs) == LongRuns(runs[..|runs| - 1]) + (if |current| > MinRunLength then [current] else []);
    if current != "" && |current| > MinRunLength {
      parts := parts + [current];
    }
    assert parts == LongRuns(runs);
    text := JoinSpace(parts);
  }

  /** Every run consists of printable characters. */
  lemma {:induction false} RunsArePrintable(data: seq<byte>)
    ensures forall k :: 0 <= k < |Runs(data)| ==> AllPrintableChars(Runs(data)[k])
  {
    if data != [] {
      RunsArePrintable(data[..|data| - 1]);
    }
  }

  /** `LongRuns` keeps exactly the runs longer than the threshold, in order. */
  lemma {:induction false} LongRunsAreLong(runs: seq<string>)
    ensures forall k :: 0 <= k < |LongRuns(runs)| ==> |LongRuns(runs)[k]| > MinRunLength && LongRuns(runs)[k] in runs
  {
    if runs != [] {
      LongRunsAreLong(runs[..|runs| - 1]);
      var prefix := runs[..|runs| - 1];
      forall r | r in prefix ensures r in runs {
        var j :| 0 <= j < |prefix| && prefix[j] == r;
        assert runs[j] == r;
      }
    }
  }

  /** Every kept run is printable ASCII and longer than five characters. */
  lemma KeptRunsArePrintable(data: seq<byte>)
    ensures forall k :: 0 <= k < |LongRuns(Runs(data))| ==>
      |LongRuns(Runs(data))[k]| > MinRunLength && AllPrintableChars(LongRuns(Runs(data))[k])
  {
    RunsArePrintable(data);
    LongRunsAreLong(Runs(data));
    var runs := Runs(data);
    forall k | 0 <= k < |LongRuns(runs)| ensures AllPrintableChars(LongRuns(runs)[k]) {
      var j :| 0 <= j < |runs| && runs[j] == LongRuns(runs)[k];
    }
  }

  lemma {:induction false} JoinSpacePrintable(parts: seq<string>)
    requires forall k :: 0 <= k < |parts| ==> AllPrintableChars(parts[k])
    ensures AllPrintableChars(JoinSpace(parts))
  {
    if |parts| > 1 {
      JoinSpacePrintable(parts[..|parts| - 1]);
    }
  }

  /** The fallback text is printable ASCII throughout (the separator is a space). */
  lemma PrintableTextIsPrintable(data: seq<byte>)
    ensures AllPrintableChars(PrintableText(data))
  {
    KeptRunsArePrintable(data);
    JoinSpacePrintable(LongRuns(Runs(data)));
  }

  function Concat(parts: seq<string>): string {
    if parts == [] then "" else Concat(parts[..|parts| - 1]) + parts[|parts| - 1]
  }

  /** The printable bytes of `data`, in order. */
  function PrintableBytes(data: seq<byte>): seq<byte> {
    if data == [] then []
    else
      var b := data[|data| - 1];
      PrintableBytes(data[..|data| - 1]) + (if IsPrintable(b) then [b] else [])
  }

  function SeparatorCount(data: seq<byte>): nat {
    if data == [] then 0
    else SeparatorCount(data[..|data| - 1]) + (if IsPrintable(data[|data| - 1]) then 0 else 1)
  }

  lemma {:induction false} ConcatSnoc(parts: seq<string>, part: string)
    ensures Concat(parts + [part]) == Concat(parts) + part
  {
    assert (parts + [part])[..|parts|] == parts;
  }

  lemma {:induction false} CharsSnoc(data: seq<byte>, b: byte)
    ensures Chars(data + [b]) == Chars(data) + [ByteChar(b)]
  {
  }

  /** A printable byte extends the open run. */
  lemma {:induction false} RunsCoverPrintableStep(init: seq<byte>, b: byte)
    requires IsPrintable(b)
    requires Concat(Runs(init)) == Chars(PrintableBytes(init))
    ensures Concat(Runs(init + [b])) == Chars(PrintableBytes(init + [b]))
  {
    var data := init + [b];
    assert data[..|data| - 1] == init;
    var prev := Runs(init);
    var front := prev[..|prev| - 1];
    var last := prev[|prev| - 1];
    assert prev == front + [last];
    ConcatSnoc(front, last);
    ConcatSnoc(front, last + [ByteChar(b)]);
    assert Runs(data) == front + [last + [ByteChar(b)]];
    assert PrintableBytes(data) == PrintableBytes(init) + [b];
    CharsSnoc(PrintableBytes(init), b);
  }

  /** A non-printable byte closes the open run and starts an empty one. */
  lemma {:induction false} RunsCoverSeparatorStep(init: seq<byte>, b: byte)
    requires !IsPrintable(b)
    requires Concat(Runs(init)) == Chars(PrintableBytes(init))
    ensures Concat(Runs(init + [b])) == Chars(PrintableBytes(init + [b]))
  {
    var data := init + [b];
    assert data[..|data| - 1] == init;
    ConcatSnoc(Runs(init), "");
    assert Runs(data) == Runs(init) + [""];
    assert PrintableBytes(data) == PrintableBytes(init);
  }

  /** The runs are the printable bytes in input order, cut at each of the
      non-printable bytes: one more run than there are separators. */
  lemma {:induction false} RunsCoverPrintableBytes(data: seq<byte>)
    ensures Concat(Runs(data)) == Chars(PrintableBytes(data))
    ensures |Runs(data)| == SeparatorCount(data) + 1
  {
    if data != [] {
      var init := data[..|data| - 1];
      var b := data[|data| - 1];
      assert data == init + [b];
      RunsCoverPrintableBytes(init);
      if IsPrintable(b) {
        RunsCoverPrintableStep(init, b);
      } else {
        RunsCoverSeparatorStep(init, b);
      }
    }
  }

  lemma {:induction false} RunsOfPrintable(data: seq<byte>)
    requires forall i :: 0 <= i < |data| ==> IsPrintable(data[i])
    ensures Runs(data) == [Chars(data)]
  {
    if data != [] {
      RunsOfPrintable(data[..|data| - 1]);
      assert Chars(data) == Chars(data[..|data| - 1]) + [ByteChar(data[|data| - 1])];
    }
  }

  /** Input that is all printable and longer than five bytes comes back whole. */
  lemma AllPrintableKeptWhole(data: seq<byte>)
    requires forall i :: 0 <= i < |data| ==> IsPrintable(data[i])
    requires |data| > MinRunLength
    ensures PrintableText(data) == Chars(data)
  {
    RunsOfPrintable(data);
    assert LongRuns([Chars(data)]) == LongRuns([]) + [Chars(data)];
  }

  /** A run still open at the end of the input obeys the same threshold as one
      closed by a non-printable byte: appending such a byte changes nothing. */
  lemma TrailingRunSameRule(data: seq<byte>, b: byte)
    requires !IsPrintable(b)
    ensures PrintableText(data + [b]) == PrintableText(data)
  {
    assert (data + [b])[..|data|] == data;
    var runs := Runs(data + [b]);
    assert runs == Runs(data) + [""];
    assert runs[..|runs| - 1] == Runs(data);
    assert |runs[|runs| - 1]| == 0;
    assert LongRuns(runs) == LongRuns(Runs(data));
    assert PrintableText(data + [b]) == JoinSpace(LongRuns(runs));
  }

  // ---------------------------------------------------------------------------
  // The decoder

  /** The text is accepted as the profile when it mentions one of these keys. */
  predicate HasMarker(content: string) {
    Contains(content, "active_mods") || Contains(content, "experience") || Contains(content, "company_name")
  }

  /** What `_decode_sii_simple` returns for a file: "" when reading fails, the
      UTF-8 text when it mentions a marker, the printable runs otherwise. */
  function DecodedText(file: ReadOutcome): string {
    match file
    case ReadFailed => ""
    case ReadOk(data) =>
      var content := Utf8Ignore(data);
      if HasMarker(content) then content else PrintableText(data)
  }

  method DecodeSiiSimple(file: ReadOutcome) returns (text: string)
    ensures text == DecodedText(file)
  {
    match file
    case ReadFailed =>
      text := "";
    case ReadOk(data) =>
      var content := Utf8Ignore(data);
      if HasMarker(content) {
        text := content;
      } else {
        text := ExtractPrintableText(data);
      }
  }

  /** A readable ASCII file that mentions a marker is returned as it is. */
  lemma DecodeAsciiWithMarker(data: seq<byte>)
    requires IsAscii(data) && HasMarker(Chars(data))
    ensures DecodedText(ReadOk(data)) == Chars(data)
  {
    Utf8IgnoreAscii(data);
  }

  /** When the UTF-8 text is not kept, the result is printable ASCII only. */
  lemma DecodeFallbackIsPrintable(data: seq<byte>)
    requires !HasMarker(Utf8Ignore(data))
    ensures DecodedText(ReadOk(data)) == PrintableText(data)
    ensures AllPrintableChars(DecodedText(ReadOk(data)))
  {
    PrintableTextIsPrintable(data);
  }
}
