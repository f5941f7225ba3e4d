/**
  Between the bytes of a file and the text of a document: byte-order mark,
  UTF-8 and line endings, and exactly when going there and back is lossless.
 */
module FileText {
  import opened Wrappers
  import opened Utf8

  const MAX_DOCUMENT_BYTES: nat := 64 * 1024 * 1024
  const BOM: seq<Byte> := [0xef, 0xbb, 0xbf]

  datatype LineEnding = Lf | CrLf

  datatype Contents = Contents(text: string, ending: LineEnding, bom: bool)

  datatype LoadResult = Loaded(contents: Contents) | TooLarge(size: nat) | Binary | NotUtf8

  // ---------------------------------------------------------------------------
  // Line endings
  // ---------------------------------------------------------------------------

  /** How many times CR LF occurs. */
  function CrLfs(text: string): nat {
    if |text| < 2 then 0
    else if text[0] == '\r' && text[1] == '\n' then 1 + CrLfs(text[2..])
    else CrLfs(text[1..])
  }

  function Lfs(text: string): nat {
    if text == "" then 0 else (if text[0] == '\n' then 1 else 0) + Lfs(text[1..])
  }

  function ReplaceCrLf(text: string): (r: string)
    ensures |r| <= |text|
  {
    if text == "" then ""
    else if |text| >= 2 && text[0] == '\r' && text[1] == '\n' then "\n" + ReplaceCrLf(text[2..])
    else [text[0]] + ReplaceCrLf(text[1..])
  }

  function ReplaceCr(text: string): string {
    if text == "" then "" else [if text[0] == '\r' then '\n' else text[0]] + ReplaceCr(text[1..])
  }

  /** Every LF becomes CR LF. */
  function Expand(text: string): string {
    if text == "" then "" else (if text[0] == '\n' then "\r\n" else [text[0]]) + Expand(text[1..])
  }

  function DetectEnding(text: string): LineEnding {
    if CrLfs(text) > 0 && CrLfs(text) * 2 >= Lfs(text) then CrLf else Lf
  }

  function Normalize(text: string): string {
    ReplaceCr(ReplaceCrLf(text))
  }

  // ---------------------------------------------------------------------------
  // Files
  // ---------------------------------------------------------------------------

  function EncodedText(c: Contents): string {
    if c.ending == CrLf then Expand(c.text) else c.text
  }

  function EncodedBytes(c: Contents): seq<Byte> {
    (if c.bom then BOM else []) + Encode(EncodedText(c))
  }

  function Load(bytes: seq<Byte>): LoadResult {
    if |bytes| > MAX_DOCUMENT_BYTES then TooLarge(|bytes|)
    else if 0 in bytes then Binary
    else
      var bom := BOM <= bytes;
      match Decode(if bom then bytes[3..] else bytes)
      case None => NotUtf8
      case Some(text) => Loaded(Contents(Normalize(text), DetectEnding(text), bom))
  }

  // ---------------------------------------------------------------------------
  // Line endings, there and back
  // ---------------------------------------------------------------------------

  /** CR and LF occur in pairs only. */
  predicate Paired(text: string) {
    if text == "" then true
    else if text[0] == '\r' then |text| >= 2 && text[1] == '\n' && Paired(text[2..])
    else text[0] != '\n' && Paired(text[1..])
  }

  /** Either no CR at all, or CR LF throughout. */
  predicate Uniform(text: string) { '\r' !in text || Paired(text) }

  lemma {:induction false} NoCrStays(text: string)
    requires '\r' !in text
    ensures Normalize(text) == text && CrLfs(text) == 0
  {
    if text != "" {
      assert text == [text[0]] + text[1..];
      assert text[0] in text && forall c <- text[1..] :: c in text;
      NoCrStays(text[1..]);
      assert ReplaceCrLf(text)[1..] == ReplaceCrLf(text[1..]);
    }
  }

  lemma {:induction false} NoCrLeft(text: string)
    ensures '\r' !in Normalize(text)
    decreases |text|
  {
    NoCrAfterReplace(ReplaceCrLf(text));
  }

  lemma {:induction false} NoCrAfterReplace(text: string)
    ensures '\r' !in ReplaceCr(text)
  {
    if text != "" {
      NoCrAfterReplace(text[1..]);
    }
  }

  lemma PairFront(rest: string)
    ensures var text := "\r\n" + rest;
            && (Paired(text) <==> Paired(rest))
            && Normalize(text) == "\n" + Normalize(rest)
            && CrLfs(text) == 1 + CrLfs(rest) && Lfs(text) == 1 + Lfs(rest)
  {
    var text := "\r\n" + rest;
    assert text[2..] == rest && text[1..][1..] == rest;
    assert ReplaceCrLf(text)[1..] == ReplaceCrLf(rest);
  }

  lemma PlainFront(c: char, rest: string)
    requires c != '\r' && c != '\n'
    ensures var text := [c] + rest;
            && (Paired(text) <==> Paired(rest))
            && Normalize(text) == [c] + Normalize(rest)
            && CrLfs(text) == CrLfs(rest) && Lfs(text) == Lfs(rest)
  {
    var text := [c] + rest;
    assert text[1..] == rest;
    assert ReplaceCrLf(text)[1..] == ReplaceCrLf(rest);
  }

  lemma ExpandFront(c: char, rest: string)
    ensures Expand([c] + rest) == (if c == '\n' then "\r\n" else [c]) + Expand(rest)
  {
    assert ([c] + rest)[1..] == rest;
  }

  lemma {:induction false} PairedComesBack(text: string)
    requires Paired(text)
    ensures Expand(Normalize(text)) == text && CrLfs(text) == Lfs(text)
    decreases |text|
  {
    if text != "" {
      if text[0] == '\r' {
        PairedComesBack(text[2..]);
        PairFront(text[2..]);
        ExpandFront('\n', Normalize(text[2..]));
        assert text == "\r\n" + text[2..];
      } else {
        PairedComesBack(text[1..]);
        PlainFront(text[0], text[1..]);
        ExpandFront(text[0], Normalize(text[1..]));
        assert text == [text[0]] + text[1..];
      }
    }
  }

  lemma {:induction false} ExpandedIsPaired(text: string)
    requires '\r' !in text
    ensures Paired(Expand(text)) && Normalize(Expand(text)) == text
    ensures CrLfs(Expand(text)) == Lfs(Expand(text)) == Lfs(text)
  {
    hide Normalize;
    if text == "" {
      NoCrStays("");
    } else {
      assert text[0] in text && forall c <- text[1..] :: c in text;
      ExpandedIsPaired(text[1..]);
      ExpandFront(text[0], text[1..]);
      assert text == [text[0]] + text[1..];
      if text[0] == '\n' {
        PairFront(Expand(text[1..]));
      } else {
        PlainFront(text[0], Expand(text[1..]));
      }
    }
  }

  lemma {:induction false} PairedHasPairs(text: string)
    requires Paired(text) && '\r' in text
    ensures CrLfs(text) > 0
    decreases |text|
  {
    if text[0] != '\r' {
      PairedHasPairs(text[1..]);
    }
  }

  /** What saving writes after loading: the same text exactly when its line endings are uniform. */
  lemma LinesComeBack(text: string, bom: bool)
    ensures EncodedText(Contents(Normalize(text), DetectEnding(text), bom)) == text <==> Uniform(text)
  {
    NoCrLeft(text);
    if '\r' !in text {
      NoCrStays(text);
    } else {
      if Paired(text) {
        PairedComesBack(text);
        PairedHasPairs(text);
      }
      ExpandedIsPaired(Normalize(text));
    }
  }

  /** Opening a file and saving it unchanged keeps its bytes exactly when its line endings are uniform. */
  lemma LoadSave(bytes: seq<Byte>)
    requires Load(bytes).Loaded?
    ensures var text := Decode(if BOM <= bytes then bytes[3..] else bytes);
            text.Some? && (EncodedBytes(Load(bytes).contents) == bytes <==> Uniform(text.value))
  {
    hide Encode, Decode, Normalize, DetectEnding, EncodedText, Uniform;
    var bom := BOM <= bytes;
    var body := if bom then bytes[3..] else bytes;
    var text := Decode(body).value;
    LinesComeBack(text, bom);
    EncodeDecode(body);
    DecodeEncode(EncodedText(Load(bytes).contents));
    var prefix := if bom then BOM else [];
    assert bytes == prefix + body;
    Cancel(prefix, Encode(EncodedText(Load(bytes).contents)), body);
  }

  /** A file with one CR LF and one LF is loaded as CR LF text, and saved with a CR more than it had. */
  lemma MixedEndingsAreLost()
    ensures Load([13, 10, 10]) == Loaded(Contents("\n\n", CrLf, false))
    ensures EncodedBytes(Load([13, 10, 10]).contents) == [13, 10, 13, 10]
  {
    hide Encode, Decode, Normalize, DetectEnding, EncodedBytes;
    var bytes: seq<Byte> := [13, 10, 10];
    assert bytes[0] != BOM[0] && 0 !in bytes;
    MixedText();
    DecodeEncode("\r\n\n");
    assert Load(bytes) == Loaded(Contents("\n\n", CrLf, false));
    TwoLinesSaved();
  }

  lemma MixedText()
    ensures Encode("\r\n\n") == [13, 10, 10]
    ensures Normalize("\r\n\n") == "\n\n" && DetectEnding("\r\n\n") == CrLf
  {
    EncodeAscii("\r\n\n");
    NoCrStays("\n");
    PairFront("\n");
    assert "\r\n" + "\n" == "\r\n\n" && "\n" + "\n" == "\n\n";
    assert Lfs("\n") == 1;
  }

  lemma TwoLinesSaved()
    ensures EncodedBytes(Contents("\n\n", CrLf, false)) == [13, 10, 13, 10]
  {
    hide Encode;
    assert Expand("\n\n") == "\r\n\r\n" by {
      ExpandFront('\n', "\n");
      ExpandFront('\n', "");
      assert ['\n'] + "\n" == "\n\n" && ['\n'] + "" == "\n" && "\r\n" + "\r\n" == "\r\n\r\n";
    }
    EncodeAscii("\r\n\r\n");
    assert [] + Encode("\r\n\r\n") == [13, 10, 13, 10];
  }

  lemma Cancel(prefix: seq<Byte>, a: seq<Byte>, b: seq<Byte>)
    ensures prefix + a == prefix + b <==> a == b
  {
    if prefix + a == prefix + b {
      assert (prefix + a)[|prefix|..] == a && (prefix + b)[|prefix|..] == b;
    }
  }

  /**
    A text that its own encoding describes: no CR, CR LF only where there is a line to end,
    no BOM that is not declared.
   */
  predicate Faithful(c: Contents) {
    && '\r' !in c.text
    && (c.ending == CrLf ==> '\n' in c.text)
    && (c.bom || c.text == "" || c.text[0] != '\U{feff}')
  }

  lemma {:induction false} LfsCount(text: string)
    ensures Lfs(text) > 0 <==> '\n' in text
  {
    if text != "" {
      LfsCount(text[1..]);
    }
  }

  lemma BomIsScalar(text: string)
    ensures BOM <= Encode(text) <==> text != "" && text[0] == '\U{feff}'
  {
    assert EncodeScalar('\U{feff}') == BOM;
    if text != "" {
      FirstOfEncoded(text[0], Encode(text[1..]));
      if BOM <= Encode(text) {
        assert Encode(text) == BOM + Encode(text)[3..];
        FirstOfEncoded('\U{feff}', Encode(text)[3..]);
      }
    }
  }

  lemma ExpandKeepsFirst(text: string)
    ensures text != "" && text[0] == '\U{feff}' <==> Expand(text) != "" && Expand(text)[0] == '\U{feff}'
  {
  }

  lemma EncodedComesBack(c: Contents)
    ensures (Normalize(EncodedText(c)) == c.text && DetectEnding(EncodedText(c)) == c.ending)
       <==> '\r' !in c.text && (c.ending == CrLf ==> '\n' in c.text)
  {
    NoCrLeft(EncodedText(c));
    LfsCount(c.text);
    if '\r' !in c.text {
      NoCrStays(c.text);
      ExpandedIsPaired(c.text);
    }
  }

  /** What saving forgets: CR LF without a line to end, a CR, and that a leading U+FEFF was text. */
  lemma ForgottenOnSave()
    ensures Load(EncodedBytes(Contents("a", CrLf, false))) == Loaded(Contents("a", Lf, false))
    ensures Load(EncodedBytes(Contents("\r", Lf, false))) == Loaded(Contents("\n", Lf, false))
    ensures Load(EncodedBytes(Contents("\U{feff}", Lf, false))) == Loaded(Contents("", Lf, true))
  {
    LoadedAscii("a");
    LoadedAscii("\r");
    assert Expand("a") == "a" && Normalize("a") == "a" && Normalize("\r") == "\n";
    assert EncodedBytes(Contents("a", CrLf, false)) == Encode("a");
    assert EncodedBytes(Contents("\r", Lf, false)) == Encode("\r");
    MarkIsTaken();
  }

  lemma LoadedAscii(text: string)
    requires |text| == 1 && 0 < text[0] as int < 0x80
    ensures Load(Encode(text)) == Loaded(Contents(Normalize(text), DetectEnding(text), false))
  {
    EncodeAscii(text);
    DecodeEncode(text);
  }

  lemma MarkIsTaken()
    ensures Load(EncodedBytes(Contents("\U{feff}", Lf, false))) == Loaded(Contents("", Lf, true))
  {
    assert EncodeScalar('\U{feff}') == BOM;
    assert EncodedBytes(Contents("\U{feff}", Lf, false)) == BOM + Encode("");
    DecodeEncode("");
    assert (BOM + Encode(""))[3..] == Encode("");
    NoCrStays("");
  }

  /**
    Saving a document and opening the file gives the document back exactly
    when the file can be opened and describes it.
   */
  lemma SaveLoad(c: Contents)
    ensures Load(EncodedBytes(c)) == Loaded(c)
       <==> |EncodedBytes(c)| <= MAX_DOCUMENT_BYTES && 0 !in EncodedBytes(c) && Faithful(c)
  {
    hide Encode, Decode, Normalize, DetectEnding, Expand;
    var bytes, text := EncodedBytes(c), EncodedText(c);
    DecodeEncode(text);
    EncodedComesBack(c);
    BomIsScalar(text);
    ExpandKeepsFirst(c.text);
    if c.bom {
      assert BOM <= bytes && bytes[3..] == Encode(text);
    } else {
      assert bytes == Encode(text);
    }
  }

  // ---------------------------------------------------------------------------
  // Which line ending a text has
  // ---------------------------------------------------------------------------

  function LfAt(text: string): set<int> {
    set i | 0 <= i < |text| && text[i] == '\n'
  }

  /** The LF with a CR right before it. */
  function CrLfAt(text: string): set<int> {
    set i | i in LfAt(text) && BehindCr(text, i)
  }

  predicate BehindCr(text: string, i: int) { 0 < i <= |text| && text[i - 1] == '\r' }

  lemma {:induction false} LfsSnoc(text: string, c: char)
    ensures Lfs(text + [c]) == Lfs(text) + if c == '\n' then 1 else 0
  {
    if text == "" {
      assert (text + [c])[1..] == "";
    } else {
      assert (text + [c])[1..] == text[1..] + [c];
      LfsSnoc(text[1..], c);
    }
  }

  lemma {:induction false} CrLfsSnoc(text: string, c: char)
    ensures CrLfs(text + [c]) == CrLfs(text) + if text != "" && text[|text| - 1] == '\r' && c == '\n' then 1 else 0
    decreases |text|
  {
    if |text| >= 2 && text[0] == '\r' && text[1] == '\n' {
      assert (text + [c])[2..] == text[2..] + [c];
      CrLfsSnoc(text[2..], c);
    } else if text != "" {
      assert (text + [c])[1..] == text[1..] + [c];
      CrLfsSnoc(text[1..], c);
    }
  }

  lemma {:induction false} LfsCounted(text: string)
    ensures Lfs(text) == |LfAt(text)|
  {
    if text != "" {
      var before, c := text[..|text| - 1], text[|text| - 1];
      assert text == before + [c];
      LfsCounted(before);
      LfsSnoc(before, c);
      assert LfAt(text) == LfAt(before) + if c == '\n' then {|before|} else {};
    }
  }

  lemma {:induction false} CrLfsCounted(text: string)
    ensures CrLfs(text) == |CrLfAt(text)|
  {
    if text != "" {
      var before, c := text[..|text| - 1], text[|text| - 1];
      assert text == before + [c];
      CrLfsCounted(before);
      CrLfsSnoc(before, c);
      assert CrLfAt(text)
          == CrLfAt(before) + if before != "" && before[|before| - 1] == '\r' && c == '\n' then {|before|} else {};
    }
  }

  /** A text counts as CR LF exactly when it has such a line break and no fewer of them than of bare LF. */
  lemma MajorityDecides(text: string)
    ensures DetectEnding(text) == CrLf
       <==> CrLfAt(text) != {} && |CrLfAt(text)| >= |LfAt(text) - CrLfAt(text)|
  {
    LfsCounted(text);
    CrLfsCounted(text);
    var bare := LfAt(text) - CrLfAt(text);
    assert LfAt(text) == bare + CrLfAt(text);
  }

  // ---------------------------------------------------------------------------
  // What opening a file gives
  // ---------------------------------------------------------------------------

  /** A file is refused for its size, then for a NUL byte, then for not being the UTF-8 form of any text. */
  lemma LoadTells(bytes: seq<Byte>, size: nat)
    ensures Load(bytes) == TooLarge(size) <==> |bytes| > MAX_DOCUMENT_BYTES && size == |bytes|
    ensures Load(bytes).Binary? <==> |bytes| <= MAX_DOCUMENT_BYTES && 0 in bytes
    ensures Load(bytes).NotUtf8?
       <==> |bytes| <= MAX_DOCUMENT_BYTES && 0 !in bytes
            && forall text: string :: Encode(text) != if BOM <= bytes then bytes[3..] else bytes
    ensures Load(bytes).Loaded? ==> Load(bytes).contents.bom == (BOM <= bytes)
  {
    hide Encode, Decode, Normalize, DetectEnding;
    var body := if BOM <= bytes then bytes[3..] else bytes;
    forall text: string | Encode(text) == body ensures Decode(body) == Some(text) {
      DecodeEncode(text);
    }
    if Decode(body).Some? {
      EncodeDecode(body);
    }
  }
}
