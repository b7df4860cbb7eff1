/**
 * Cell-broadcast message parsing: the Data Coding Scheme decoding of
 * 3GPP TS 23.038 section 5, the UMTS multi-page payload layout of
 * 3GPP TS 23.041 section 9.4.2.2.5 (pages of 82 octets, each followed by a
 * length octet), trailing carriage-return removal, and the Parcel format.
 *
 * The PDU is a sequence of octets 0..255; Java reads them as signed bytes.
 * The header parser, the GSM 7-bit unpacker and the UTF-16 decoder are not
 * part of this model: the parsed header is an input and the decoders are
 * function parameters.
 */
module CellBroadcast {
  import opened Wrappers

  /** SmsCbHeader.PDU_HEADER_LENGTH. */
  const PDU_HEADER_LENGTH: int := 6
  /** SmsCbHeader.PDU_LENGTH_ETWS: an ETWS primary notification with security. */
  const PDU_LENGTH_ETWS: int := 56
  const PDU_BODY_PAGE_LENGTH: int := 82
  const CARRIAGE_RETURN: char := '\r'

  datatype Encoding = ENCODING_UNKNOWN | ENCODING_7BIT | ENCODING_8BIT | ENCODING_16BIT

  const LANGUAGE_CODES_GROUP_0: seq<Option<string>> := [
    Some("de"), Some("en"), Some("it"), Some("fr"), Some("es"), Some("nl"), Some("sv"), Some("da"),
    Some("pt"), Some("fi"), Some("no"), Some("el"), Some("tr"), Some("hu"), Some("pl"), None]

  const LANGUAGE_CODES_GROUP_2: seq<Option<string>> := [
    Some("cs"), Some("he"), Some("ar"), Some("ru"), Some("is"), None, None, None,
    None, None, None, None, None, None, None, None]

  /** What the Data Coding Scheme says about the body. */
  datatype Dcs = Dcs(encoding: Encoding, language: Option<string>, hasLanguageIndicator: bool)

  /** The switch on the coding group (the high nibble of the DCS octet). */
  function DecodeDcs(dcs: byte): (d: Dcs)
    ensures var group, low := dcs / 16, dcs % 16;
      (d.encoding == ENCODING_UNKNOWN <==> group in {6, 7, 9, 14}) &&
      (d.encoding == ENCODING_16BIT <==> (group == 1 && low == 1) || (group in {4, 5} && low / 4 == 2)) &&
      (d.encoding == ENCODING_8BIT <==> (group in {4, 5} && low / 4 == 1) || (group == 15 && low / 4 % 2 == 1)) &&
      (d.hasLanguageIndicator <==> group == 1) &&
      (d.language.Some? <==> (group == 0 && low != 15) || (group == 2 && low < 5))
  {
    var group, low := dcs / 16, dcs % 16;
    if group == 0 then Dcs(ENCODING_7BIT, LANGUAGE_CODES_GROUP_0[low], false)
    else if group == 1 then Dcs(if low == 1 then ENCODING_16BIT else ENCODING_7BIT, None, true)
    else if group == 2 then Dcs(ENCODING_7BIT, LANGUAGE_CODES_GROUP_2[low], false)
    else if group == 3 then Dcs(ENCODING_7BIT, None, false)
    else if group == 4 || group == 5 then
      var bits := low / 4;
      Dcs(if bits == 1 then ENCODING_8BIT else if bits == 2 then ENCODING_16BIT else ENCODING_7BIT, None, false)
    else if group in {6, 7, 9, 14} then Dcs(ENCODING_UNKNOWN, None, false)
    else if group == 15 then Dcs(if low / 4 % 2 == 1 then ENCODING_8BIT else ENCODING_7BIT, None, false)
    else Dcs(ENCODING_7BIT, None, false)
  }

  /** Languages come from the fixed tables: group 0 ("de".."pl") and group 2 ("cs".."is"). */
  lemma DcsLanguageTables(dcs: byte)
    ensures dcs / 16 == 0 ==> DecodeDcs(dcs).language == LANGUAGE_CODES_GROUP_0[dcs % 16]
    ensures dcs / 16 == 2 ==> DecodeDcs(dcs).language == LANGUAGE_CODES_GROUP_2[dcs % 16]
    ensures DecodeDcs(0x01).language == Some("en") && DecodeDcs(0x24).language == Some("is")
  {
  }

  // ---------------------------------------------------------------------------
  // Octets and integer arithmetic as Java performs them
  // ---------------------------------------------------------------------------

  /** The source as written reads octets as signed Java bytes; the corrected model reads them unsigned. */
  datatype Variant = AsWritten | Corrected

  function Octet(b: byte, v: Variant): (x: int)
    ensures v == Corrected ==> x == b
    ensures v == AsWritten ==> -128 <= x < 128 && (x - b) % 256 == 0
  {
    if v == AsWritten && b >= 128 then b - 256 else b
  }

  /** Java's int division, which truncates toward zero. */
  function JavaDiv(a: int, b: int): int
    requires b > 0
  {
    if a >= 0 then a / b else -((-a) / b)
  }

  /** Java's `x & 0xfffe` on an int: the low 16 bits with bit 0 cleared. */
  function EvenLow16(x: int): (r: int)
    ensures 0 <= r < 65536 && r % 2 == 0
    ensures 0 <= x < 65536 ==> r == x - x % 2
  {
    var low := x % 65536;
    low - low % 2
  }

  // ---------------------------------------------------------------------------
  // unpackBody
  // ---------------------------------------------------------------------------

  /** The decoders the parser calls: GSM 7-bit unpacking (null on failure) and UTF-16. */
  datatype Codecs = Codecs(gsm7: (seq<byte>, int, int) -> Option<string>, utf16: seq<byte> -> string)

  /** unpackBody's side effect on the message language. */
  datatype LanguageUpdate = Keep | SetTo(language: Option<string>)

  datatype Unpacked = Unpacked(language: LanguageUpdate, body: string) | OutOfBounds

  /** Removes the trailing carriage returns; a body made only of them is kept as it is. */
  function StripCR(s: string): (r: string)
    ensures |r| <= |s| && r == s[..|r|]
    ensures forall j :: |r| <= j < |s| ==> s[j] == CARRIAGE_RETURN
    ensures (exists j :: 0 <= j < |s| && s[j] != CARRIAGE_RETURN) ==> r != [] && r[|r| - 1] != CARRIAGE_RETURN
    ensures (forall j :: 0 <= j < |s| ==> s[j] == CARRIAGE_RETURN) ==> r == s
  {
    var k := LastNonCR(s);
    if k < 0 then s else s[..k + 1]
  }

  /** Index of the last character that is not a carriage return, or -1. */
  function LastNonCR(s: string): (k: int)
    ensures -1 <= k < |s|
    ensures k >= 0 ==> s[k] != CARRIAGE_RETURN
    ensures forall j :: k < j < |s| ==> s[j] == CARRIAGE_RETURN
  {
    if s == [] then -1
    else if s[|s| - 1] != CARRIAGE_RETURN then |s| - 1
    else LastNonCR(s[..|s| - 1])
  }

  /** The loop that removes trailing carriage returns. */
  method StripTrailingCarriageReturns(body: string) returns (r: string)
    ensures r == StripCR(body)
  {
    r := body;
    var i := |body| - 1;
    while i >= 0
      invariant -1 <= i < |body|
      invariant forall j :: i < j < |body| ==> body[j] == CARRIAGE_RETURN
    {
      if body[i] != CARRIAGE_RETURN {
        r := body[..i + 1];
        LastNonCRIsLast(body, i);
        return;
      }
      i := i - 1;
    }
    LastNonCRIsLast(body, -1);
  }

  lemma LastNonCRIsLast(s: string, k: int)
    requires -1 <= k < |s|
    requires k >= 0 ==> s[k] != CARRIAGE_RETURN
    requires forall j :: k < j < |s| ==> s[j] == CARRIAGE_RETURN
    ensures LastNonCR(s) == k
  {
  }

  /** The body a decoder produced, or "" when it produced none, with trailing CRs removed. */
  function Finish(language: LanguageUpdate, body: Option<string>): Unpacked
  {
    match body
    case None => Unpacked(language, "")
    case Some(b) => Unpacked(language, StripCR(b))
  }

  /**
   * unpackBody for one page (or the single GSM payload). Only the UCS-2
   * String constructor can read outside the PDU; once corrected, a page
   * that lies inside the PDU never does.
   */
  function UnpackBody(pdu: seq<byte>, encoding: Encoding, offset: int, length: int,
                      hasLanguageIndicator: bool, codecs: Codecs, v: Variant): (u: Unpacked)
    ensures u.OutOfBounds? ==> encoding == ENCODING_16BIT
    ensures v == Corrected && 0 <= offset && 0 <= length && offset + length <= |pdu| ==> u.Unpacked?
  {
    match encoding
    case ENCODING_7BIT =>
      var body := codecs.gsm7(pdu, offset, JavaDiv(length * 8, 7));
      if hasLanguageIndicator && body.Some? && |body.value| > 2 then
        Finish(SetTo(Some(body.value[..2])), Some(body.value[3..]))
      else Finish(Keep, body)
    case ENCODING_16BIT =>
      var withLanguage := hasLanguageIndicator && |pdu| >= offset + 2;
      var language := if withLanguage then SetTo(codecs.gsm7(pdu, offset, 2)) else Keep;
      var start := if withLanguage then offset + 2 else offset;
      var rest := if withLanguage then length - 2 else length;
      var count := if v == Corrected && rest < 0 then 0 else EvenLow16(rest);
      if 0 <= start && start + count <= |pdu| then Finish(language, Some(codecs.utf16(pdu[start..start + count])))
      else OutOfBounds
    case _ => Finish(Keep, None)
  }

  /** No branch decodes an 8-bit or unknown body: the body is empty and the language is kept. */
  lemma UnpackOtherEncodingsEmpty(pdu: seq<byte>, encoding: Encoding, offset: int, length: int,
                                  hasLanguageIndicator: bool, codecs: Codecs, v: Variant)
    requires encoding in {ENCODING_8BIT, ENCODING_UNKNOWN}
    ensures UnpackBody(pdu, encoding, offset, length, hasLanguageIndicator, codecs, v) == Unpacked(Keep, "")
  {
  }

  /**
   * The 16-bit path hands the UTF-16 decoder an even number of octets: the
   * page length (less the two language octets) with bit 0 cleared.
   */
  lemma Unpack16BitEven(pdu: seq<byte>, offset: int, length: int, codecs: Codecs, v: Variant)
    requires 0 <= offset && offset + length <= |pdu| && 0 <= length < 65536
    ensures UnpackBody(pdu, ENCODING_16BIT, offset, length, false, codecs, v)
         == Finish(Keep, Some(codecs.utf16(pdu[offset..offset + length - length % 2])))
  {
  }

  // ---------------------------------------------------------------------------
  // parseBody
  // ---------------------------------------------------------------------------

  datatype Format = FORMAT_GSM | FORMAT_UMTS | FORMAT_ETWS_PRIMARY

  /** The header fields the body parser uses (SmsCbHeader is not part of this model). */
  datatype Header = Header(format: Format, dataCodingScheme: byte)

  /** parseBody's outcome: language and body, or one of the two exceptions it can raise. */
  datatype BodyResult = Parsed(language: Option<string>, body: string) | IllegalArgument | IndexOutOfBounds

  function Apply(language: Option<string>, update: LanguageUpdate): Option<string>
  {
    match update
    case Keep => language
    case SetTo(l) => l
  }

  /** Offset of page i of a UMTS payload. */
  function PageOffset(i: int): int { PDU_HEADER_LENGTH + 1 + (PDU_BODY_PAGE_LENGTH + 1) * i }

  /** Page i checked, unpacked and appended to what the earlier pages gave. */
  function PageAfter(pdu: seq<byte>, dcs: Dcs, i: nat, language: Option<string>, body: string,
                     codecs: Codecs, v: Variant): BodyResult
    requires |pdu| >= PageOffset(i + 1)
  {
    var offset := PageOffset(i);
    var length := Octet(pdu[offset + PDU_BODY_PAGE_LENGTH], v);
    if length > PDU_BODY_PAGE_LENGTH then IllegalArgument
    else
      match UnpackBody(pdu, dcs.encoding, offset, length, dcs.hasLanguageIndicator, codecs, v)
      case OutOfBounds => IndexOutOfBounds
      case Unpacked(update, text) => Parsed(Apply(language, update), body + text)
  }

  /** The first n pages, concatenated, starting from the language the DCS gave. */
  function Pages(pdu: seq<byte>, dcs: Dcs, n: nat, codecs: Codecs, v: Variant): BodyResult
    requires |pdu| >= PageOffset(n)
  {
    if n == 0 then Parsed(dcs.language, "")
    else
      match Pages(pdu, dcs, n - 1, codecs, v)
      case Parsed(language, body) => PageAfter(pdu, dcs, n - 1, language, body, codecs, v)
      case failed => failed
  }

  /** The first page that fails decides the outcome: later pages are not read. */
  lemma {:induction false} PagesFailurePersists(pdu: seq<byte>, dcs: Dcs, k: nat, m: nat, codecs: Codecs, v: Variant)
    requires k <= m && |pdu| >= PageOffset(m)
    requires !Pages(pdu, dcs, k, codecs, v).Parsed?
    ensures Pages(pdu, dcs, m, codecs, v) == Pages(pdu, dcs, k, codecs, v)
  {
    if k < m {
      PagesFailurePersists(pdu, dcs, k, m - 1, codecs, v);
    }
  }

  /** What parseBody produces for a non-ETWS PDU. */
  function Body(pdu: seq<byte>, header: Header, codecs: Codecs, v: Variant): BodyResult
  {
    var dcs := DecodeDcs(header.dataCodingScheme);
    if header.format == FORMAT_UMTS then
      if |pdu| <= PDU_HEADER_LENGTH then IndexOutOfBounds
      else
        var nrPages := Octet(pdu[PDU_HEADER_LENGTH], v);
        if |pdu| < PDU_HEADER_LENGTH + 1 + (PDU_BODY_PAGE_LENGTH + 1) * nrPages then IllegalArgument
        else Pages(pdu, dcs, if nrPages < 0 then 0 else nrPages, codecs, v)
    else
      var offset := PDU_HEADER_LENGTH;
      match UnpackBody(pdu, dcs.encoding, offset, |pdu| - offset, dcs.hasLanguageIndicator, codecs, v)
      case OutOfBounds => IndexOutOfBounds
      case Unpacked(update, text) => Parsed(Apply(dcs.language, update), text)
  }

  /** parseBody: decodes the DCS, then the single payload or the UMTS pages one by one. */
  method ParseBody(pdu: seq<byte>, header: Header, codecs: Codecs, v: Variant) returns (r: BodyResult)
    ensures r == Body(pdu, header, codecs, v)
  {
    var dcs := DecodeDcs(header.dataCodingScheme);
    if header.format == FORMAT_UMTS {
      if |pdu| <= PDU_HEADER_LENGTH {
        return IndexOutOfBounds;
      }
      var nrPages := Octet(pdu[PDU_HEADER_LENGTH], v);
      if |pdu| < PDU_HEADER_LENGTH + 1 + (PDU_BODY_PAGE_LENGTH + 1) * nrPages {
        return IllegalArgument;
      }
      r := ParsePages(pdu, dcs, if nrPages < 0 then 0 else nrPages, codecs, v);
    } else {
      var page := UnpackBody(pdu, dcs.encoding, PDU_HEADER_LENGTH, |pdu| - PDU_HEADER_LENGTH, dcs.hasLanguageIndicator, codecs, v);
      if page.OutOfBounds? {
        return IndexOutOfBounds;
      }
      return Parsed(Apply(dcs.language, page.language), page.body);
    }
  }

  /** The page loop: each page is checked, unpacked and appended in turn. */
  method ParsePages(pdu: seq<byte>, dcs: Dcs, nrPages: nat, codecs: Codecs, v: Variant) returns (r: BodyResult)
    requires |pdu| >= PageOffset(nrPages)
    ensures r == Pages(pdu, dcs, nrPages, codecs, v)
  {
    var language := dcs.language;
    var sb := "";
    var i := 0;
    while i < nrPages
      invariant 0 <= i <= nrPages
      invariant |pdu| >= PageOffset(i)
      invariant Pages(pdu, dcs, i, codecs, v) == Parsed(language, sb)
    {
      var next := ParsePage(pdu, dcs, i, language, sb, codecs, v);
      assert Pages(pdu, dcs, i + 1, codecs, v) == next;
      if !next.Parsed? {
        PagesFailurePersists(pdu, dcs, i + 1, nrPages, codecs, v);
        return next;
      }
      language, sb := next.language, next.body;
      i := i + 1;
    }
    return Parsed(language, sb);
  }

  /** One turn of the page loop: the length check, then unpackBody for page i. */
  method ParsePage(pdu: seq<byte>, dcs: Dcs, i: nat, language: Option<string>, sb: string,
                   codecs: Codecs, v: Variant) returns (r: BodyResult)
    requires |pdu| >= PageOffset(i + 1)
    ensures r == PageAfter(pdu, dcs, i, language, sb, codecs, v)
  {
    var offset := PageOffset(i);
    var length := Octet(pdu[offset + PDU_BODY_PAGE_LENGTH], v);
    if length > PDU_BODY_PAGE_LENGTH {
      return IllegalArgument;
    }
    var page := UnpackBody(pdu, dcs.encoding, offset, length, dcs.hasLanguageIndicator, codecs, v);
    if page.OutOfBounds? {
      return IndexOutOfBounds;
    }
    return Parsed(Apply(language, page.language), sb + page.body);
  }

  // ---------------------------------------------------------------------------
  // The PDU constructor and createFromPdu
  // ---------------------------------------------------------------------------

  datatype PduMessage = PduMessage(header: Header, language: Option<string>, body: string,
                                   primaryNotificationSignature: Option<seq<byte>>)

  /** createFromPdu: a message, null for an IllegalArgumentException, or an exception that escapes. */
  datatype Created = Message(message: PduMessage) | Null | Thrown

  /**
   * createFromPdu. header is None when the header parser rejects the PDU
   * with an IllegalArgumentException.
   */
  method CreateFromPdu(pdu: seq<byte>, header: Option<Header>, codecs: Codecs, v: Variant) returns (c: Created)
    ensures header.None? ==> c == Null
    ensures header.Some? && header.value.format == FORMAT_ETWS_PRIMARY ==>
      c.Message? && c.message.body == "ETWS" &&
      (c.message.primaryNotificationSignature.Some? <==> |pdu| >= PDU_LENGTH_ETWS) &&
      (|pdu| >= PDU_LENGTH_ETWS ==> c.message.primaryNotificationSignature.value == pdu[13..56])
    ensures header.Some? && header.value.format != FORMAT_ETWS_PRIMARY ==>
      match Body(pdu, header.value, codecs, v)
      case Parsed(language, body) => c == Message(PduMessage(header.value, language, body, None))
      case IllegalArgument => c == Null
      case IndexOutOfBounds => c == Thrown
  {
    if header.None? {
      return Null;
    }
    var h := header.value;
    if h.format == FORMAT_ETWS_PRIMARY {
      var signature := if |pdu| >= PDU_LENGTH_ETWS then Some(pdu[13..56]) else None;
      return Message(PduMessage(h, None, "ETWS", signature));
    }
    var r := ParseBody(pdu, h, codecs, v);
    match r {
      case Parsed(language, body) => return Message(PduMessage(h, language, body, None));
      case IllegalArgument => return Null;
      case IndexOutOfBounds => return Thrown;
    }
  }

  /**
   * With octets read unsigned, a UMTS payload is rejected exactly when it is
   * shorter than its page count announces or some page's length octet
   * exceeds 82; every other payload parses.
   */
  lemma {:induction false} CorrectedPagesOutcome(pdu: seq<byte>, dcs: Dcs, n: nat, codecs: Codecs)
    requires |pdu| >= PageOffset(n)
    ensures Pages(pdu, dcs, n, codecs, Corrected) != IndexOutOfBounds
    ensures Pages(pdu, dcs, n, codecs, Corrected) == IllegalArgument <==>
      exists i :: 0 <= i < n && pdu[PageOffset(i) + PDU_BODY_PAGE_LENGTH] > PDU_BODY_PAGE_LENGTH
  {
    if n > 0 {
      CorrectedPagesOutcome(pdu, dcs, n - 1, codecs);
      var offset := PageOffset(n - 1);
      var length := pdu[offset + PDU_BODY_PAGE_LENGTH];
      if length <= PDU_BODY_PAGE_LENGTH {
        CorrectedPageFits(pdu, dcs, offset, length, codecs);
      }
    }
  }

  lemma CorrectedPageFits(pdu: seq<byte>, dcs: Dcs, offset: int, length: int, codecs: Codecs)
    requires 0 <= length <= PDU_BODY_PAGE_LENGTH && 0 <= offset && offset + PDU_BODY_PAGE_LENGTH < |pdu|
    ensures UnpackBody(pdu, dcs.encoding, offset, length, dcs.hasLanguageIndicator, codecs, Corrected) != OutOfBounds
  {
  }

  /**
   * With the corrected reading, createFromPdu never lets an exception escape
   * for a UMTS PDU that holds its page-count octet: it returns a message or null.
   */
  lemma CorrectedUmtsNeverThrows(pdu: seq<byte>, header: Header, codecs: Codecs)
    requires header.format == FORMAT_UMTS && |pdu| > PDU_HEADER_LENGTH
    ensures Body(pdu, header, codecs, Corrected) != IndexOutOfBounds
    ensures Body(pdu, header, codecs, Corrected) == IllegalArgument <==>
      |pdu| < PageOffset(pdu[PDU_HEADER_LENGTH]) ||
      exists i :: 0 <= i < pdu[PDU_HEADER_LENGTH] && pdu[PageOffset(i) + PDU_BODY_PAGE_LENGTH] > PDU_BODY_PAGE_LENGTH
  {
    var n := pdu[PDU_HEADER_LENGTH];
    if |pdu| >= PageOffset(n) {
      CorrectedPagesOutcome(pdu, DecodeDcs(header.dataCodingScheme), n, codecs);
    }
  }

  /**
   * A UMTS PDU with one page whose length octet is the given value. The six
   * header octets follow 3GPP TS 23.041 section 9.4.2.2: message type 1 (a
   * CBS message), message identifier and serial number 0, then the coding
   * scheme, so Header(FORMAT_UMTS, dcs) is this PDU's parsed header.
   */
  function OnePagePdu(dcs: byte, pageLength: byte): (pdu: seq<byte>)
    ensures |pdu| == PDU_HEADER_LENGTH + 1 + PDU_BODY_PAGE_LENGTH + 1
    ensures pdu[0] == 1 && pdu[5] == dcs && pdu[PDU_HEADER_LENGTH] == 1 && pdu[|pdu| - 1] == pageLength
  {
    [1, 0, 0, 0, 0, dcs] + [1] + seq(PDU_BODY_PAGE_LENGTH, _ => 0) + [pageLength]
  }

  /**
   * As written, a page length octet of 0xFF reads as -1, passes the "at most
   * 82" check, and the 16-bit path then asks for 0xfffe octets: an index
   * exception escapes createFromPdu instead of the null it promises for an
   * invalid PDU. Read unsigned, the same PDU is rejected.
   */
  lemma SignedPageLengthThrows(codecs: Codecs)
    ensures Body(OnePagePdu(0x48, 0xff), Header(FORMAT_UMTS, 0x48), codecs, AsWritten) == IndexOutOfBounds
    ensures Body(OnePagePdu(0x48, 0xff), Header(FORMAT_UMTS, 0x48), codecs, Corrected) == IllegalArgument
  {
    var pdu := OnePagePdu(0x48, 0xff);
    assert |pdu| == 90 && pdu[6] == 1 && pdu[89] == 0xff;
    var dcs := DecodeDcs(0x48);
    assert dcs == Dcs(ENCODING_16BIT, None, false);
    assert Octet(0xff, AsWritten) == -1;
    assert EvenLow16(-1) == 0xfffe;
    assert UnpackBody(pdu, dcs.encoding, 7, -1, false, codecs, AsWritten) == OutOfBounds;
    assert Pages(pdu, dcs, 0, codecs, AsWritten) == Parsed(None, "");
    assert Pages(pdu, dcs, 1, codecs, AsWritten) == IndexOutOfBounds;
    assert Pages(pdu, dcs, 0, codecs, Corrected) == Parsed(None, "");
    assert Pages(pdu, dcs, 1, codecs, Corrected) == IllegalArgument;
  }

  /**
   * As written, a 16-bit page with a language indicator and a length octet of
   * 1 leaves -1 octets for the text, which `& 0xfffe` turns into 0xfffe: the
   * same escaping index exception. Corrected, the body parses (the
   * UTF-16 decoder is a parameter, so what text it yields is left open).
   */
  lemma ShortLanguagePageThrows(codecs: Codecs)
    ensures Body(OnePagePdu(0x11, 1), Header(FORMAT_UMTS, 0x11), codecs, AsWritten) == IndexOutOfBounds
    ensures Body(OnePagePdu(0x11, 1), Header(FORMAT_UMTS, 0x11), codecs, Corrected).Parsed?
  {
    var pdu := OnePagePdu(0x11, 1);
    assert |pdu| == 90 && pdu[6] == 1 && pdu[89] == 1;
    var dcs := DecodeDcs(0x11);
    assert dcs == Dcs(ENCODING_16BIT, None, true);
    assert EvenLow16(-1) == 0xfffe;
    assert UnpackBody(pdu, dcs.encoding, 7, 1, true, codecs, AsWritten) == OutOfBounds;
    assert UnpackBody(pdu, dcs.encoding, 7, 1, true, codecs, Corrected).Unpacked?;
    assert Pages(pdu, dcs, 0, codecs, AsWritten) == Parsed(None, "");
    assert Pages(pdu, dcs, 1, codecs, AsWritten) == IndexOutOfBounds;
    assert Pages(pdu, dcs, 0, codecs, Corrected) == Parsed(None, "");
    assert Pages(pdu, dcs, 1, codecs, Corrected).Parsed?;
  }

  // ---------------------------------------------------------------------------
  // Parcel
  // ---------------------------------------------------------------------------

  /** Location, ETWS and CMAS information keep their own Parcel formats, not part of this model. */
  type Location(==)
  type EtwsInfo(==)
  type CmasInfo(==)

  datatype SmsCbMessage = SmsCbMessage(
    messageFormat: int, geographicalScope: int, serialNumber: int, location: Location,
    serviceCategory: int, language: Option<string>, body: Option<string>, priority: int,
    etwsWarningInfo: Option<EtwsInfo>, cmasWarningInfo: Option<CmasInfo>)

  datatype ParcelItem =
    | IntItem(i: int)
    | StringItem(s: Option<string>)
    | LocationItem(location: Location)
    | EtwsItem(etws: EtwsInfo)
    | CmasItem(cmas: CmasInfo)

  const DISCRIMINATOR_ETWS: int := 69   // 'E'
  const DISCRIMINATOR_CMAS: int := 67   // 'C'
  const DISCRIMINATOR_NONE: int := 48   // '0'

  /** writeToParcel: the fields in order, then the discriminator and the warning information. */
  function WriteToParcel(m: SmsCbMessage): (p: seq<ParcelItem>)
    ensures |p| == if m.etwsWarningInfo.Some? || m.cmasWarningInfo.Some? then 10 else 9
    ensures p[8].IntItem?
    ensures p[8].i == (if m.etwsWarningInfo.Some? then DISCRIMINATOR_ETWS
                       else if m.cmasWarningInfo.Some? then DISCRIMINATOR_CMAS
                       else DISCRIMINATOR_NONE)
  {
    [IntItem(m.messageFormat), IntItem(m.geographicalScope), IntItem(m.serialNumber),
     LocationItem(m.location), IntItem(m.serviceCategory), StringItem(m.language),
     StringItem(m.body), IntItem(m.priority)] +
    (if m.etwsWarningInfo.Some? then [IntItem(DISCRIMINATOR_ETWS), EtwsItem(m.etwsWarningInfo.value)]
     else if m.cmasWarningInfo.Some? then [IntItem(DISCRIMINATOR_CMAS), CmasItem(m.cmasWarningInfo.value)]
     else [IntItem(DISCRIMINATOR_NONE)])
  }

  /**
   * The Parcel constructor; None when the parcel does not hold the items it
   * reads. At most one kind of warning information is read, and when the
   * discriminator is one writeToParcel writes, writing the message back
   * gives the items read.
   */
  function ReadFromParcel(p: seq<ParcelItem>): (r: Option<SmsCbMessage>)
    ensures r.Some? ==> r.value.etwsWarningInfo.None? || r.value.cmasWarningInfo.None?
    ensures r.Some? ==> |p| >= 9 && p[8].IntItem? && |WriteToParcel(r.value)| <= |p|
    ensures r.Some? && p[8].i in {DISCRIMINATOR_ETWS, DISCRIMINATOR_CMAS, DISCRIMINATOR_NONE} ==>
      WriteToParcel(r.value) == p[..|WriteToParcel(r.value)|]
  {
    if |p| < 9 || !p[0].IntItem? || !p[1].IntItem? || !p[2].IntItem? || !p[3].LocationItem?
       || !p[4].IntItem? || !p[5].StringItem? || !p[6].StringItem? || !p[7].IntItem? || !p[8].IntItem?
    then None
    else
      var m := SmsCbMessage(p[0].i, p[1].i, p[2].i, p[3].location, p[4].i, p[5].s, p[6].s, p[7].i, None, None);
      if p[8].i == DISCRIMINATOR_ETWS then
        if |p| > 9 && p[9].EtwsItem? then Some(m.(etwsWarningInfo := Some(p[9].etws))) else None
      else if p[8].i == DISCRIMINATOR_CMAS then
        if |p| > 9 && p[9].CmasItem? then Some(m.(cmasWarningInfo := Some(p[9].cmas))) else None
      else Some(m)
  }

  /**
   * Reading back what writeToParcel wrote gives the same message, except
   * that ETWS information takes precedence: CMAS information written beside
   * it is lost.
   */
  lemma ParcelRoundTrip(m: SmsCbMessage)
    ensures ReadFromParcel(WriteToParcel(m)) ==
      Some(if m.etwsWarningInfo.Some? then m.(cmasWarningInfo := None) else m)
  {
  }
}
