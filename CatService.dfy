/**
 * The SIM Toolkit service: the TERMINAL RESPONSE and ENVELOPE encoders
 * (ETSI TS 102 223 sections 6.8 and 7), the semi-octet time-zone byte
 * (3GPP TS 23.040 section 9.2.3.11) and the small command/response state
 * machine over the current command and the SET UP MENU command.
 *
 * The RIL is a log of what the service sends; ResponseData.format and the
 * PROVIDE LOCAL INFORMATION payload are functions given to the service.
 */
module SimToolkit {
  import opened Wrappers

  // ---------------------------------------------------------------------------
  // COMPREHENSION-TLV tags and command types
  // ---------------------------------------------------------------------------

  datatype ComprehensionTlvTag =
    | COMMAND_DETAILS | DEVICE_IDENTITIES | RESULT | DURATION | ALPHA_ID | USSD_STRING
    | TEXT_STRING | TONE | ITEM | ITEM_ID | RESPONSE_LENGTH | FILE_LIST | HELP_REQUEST
    | DEFAULT_TEXT | EVENT_LIST | ICON_ID | ITEM_ICON_ID_LIST | DATETIME_TIMEZONE
    | IMMEDIATE_RESPONSE | LANGUAGE | URL | BROWSER_TERMINATION_CAUSE | TEXT_ATTRIBUTE

  /** A tag's value; the top bit is left free for the comprehension-required flag. */
  function TagValue(t: ComprehensionTlvTag): (v: byte)
    ensures v < 0x80
  {
    match t
    case COMMAND_DETAILS => 0x01
    case DEVICE_IDENTITIES => 0x02
    case RESULT => 0x03
    case DURATION => 0x04
    case ALPHA_ID => 0x05
    case USSD_STRING => 0x0a
    case TEXT_STRING => 0x0d
    case TONE => 0x0e
    case ITEM => 0x0f
    case ITEM_ID => 0x10
    case RESPONSE_LENGTH => 0x11
    case FILE_LIST => 0x12
    case HELP_REQUEST => 0x15
    case DEFAULT_TEXT => 0x17
    case EVENT_LIST => 0x19
    case ICON_ID => 0x1e
    case ITEM_ICON_ID_LIST => 0x1f
    case DATETIME_TIMEZONE => 0x26
    case IMMEDIATE_RESPONSE => 0x2b
    case LANGUAGE => 0x2d
    case URL => 0x31
    case BROWSER_TERMINATION_CAUSE => 0x34
    case TEXT_ATTRIBUTE => 0x50
  }

  /** The tags in declaration order, as values() lists them. */
  const TAGS: seq<ComprehensionTlvTag> :=
    [COMMAND_DETAILS, DEVICE_IDENTITIES, RESULT, DURATION, ALPHA_ID, USSD_STRING,
     TEXT_STRING, TONE, ITEM, ITEM_ID, RESPONSE_LENGTH, FILE_LIST, HELP_REQUEST,
     DEFAULT_TEXT, EVENT_LIST, ICON_ID, ITEM_ICON_ID_LIST, DATETIME_TIMEZONE,
     IMMEDIATE_RESPONSE, LANGUAGE, URL, BROWSER_TERMINATION_CAUSE, TEXT_ATTRIBUTE]

  /** The proactive command types (ETSI TS 102 223 section 9.4). */
  datatype CommandType =
    | REFRESH | SET_UP_EVENT_LIST | SET_UP_CALL | SEND_SS | SEND_USSD | SEND_SMS | SEND_DTMF
    | LAUNCH_BROWSER | PLAY_TONE | DISPLAY_TEXT | GET_INKEY | GET_INPUT | SELECT_ITEM
    | SET_UP_MENU | PROVIDE_LOCAL_INFORMATION | SET_UP_IDLE_MODE_TEXT | OPEN_CHANNEL
    | CLOSE_CHANNEL | RECEIVE_DATA | SEND_DATA | GET_CHANNEL_STATUS

  function CommandTypeValue(c: CommandType): byte
  {
    match c
    case REFRESH => 0x01
    case SET_UP_EVENT_LIST => 0x05
    case SET_UP_CALL => 0x10
    case SEND_SS => 0x11
    case SEND_USSD => 0x12
    case SEND_SMS => 0x13
    case SEND_DTMF => 0x14
    case LAUNCH_BROWSER => 0x15
    case PLAY_TONE => 0x20
    case DISPLAY_TEXT => 0x21
    case GET_INKEY => 0x22
    case GET_INPUT => 0x23
    case SELECT_ITEM => 0x24
    case SET_UP_MENU => 0x25
    case PROVIDE_LOCAL_INFORMATION => 0x26
    case SET_UP_IDLE_MODE_TEXT => 0x28
    case OPEN_CHANNEL => 0x40
    case CLOSE_CHANNEL => 0x41
    case RECEIVE_DATA => 0x42
    case SEND_DATA => 0x43
    case GET_CHANNEL_STATUS => 0x44
  }

  const COMMAND_TYPES: seq<CommandType> :=
    [REFRESH, SET_UP_EVENT_LIST, SET_UP_CALL, SEND_SS, SEND_USSD, SEND_SMS, SEND_DTMF,
     LAUNCH_BROWSER, PLAY_TONE, DISPLAY_TEXT, GET_INKEY, GET_INPUT, SELECT_ITEM,
     SET_UP_MENU, PROVIDE_LOCAL_INFORMATION, SET_UP_IDLE_MODE_TEXT, OPEN_CHANNEL,
     CLOSE_CHANNEL, RECEIVE_DATA, SEND_DATA, GET_CHANNEL_STATUS]

  /** The first constant of xs whose value is v: the search fromInt makes over values(). */
  function FirstWithValue<T>(xs: seq<T>, value: T -> byte, v: int): (r: Option<T>)
    ensures r.Some? ==> r.value in xs && value(r.value) == v
    ensures r.None? <==> forall x :: x in xs ==> value(x) != v
  {
    if |xs| == 0 then None
    else if value(xs[0]) == v then Some(xs[0])
    else
      var r := FirstWithValue(xs[1..], value, v);
      assert forall x :: x in xs ==> x == xs[0] || x in xs[1..];
      r
  }

  /** When no other constant shares t's value, the search finds t. */
  lemma {:induction false} FirstWithValueFinds<T>(xs: seq<T>, value: T -> byte, t: T)
    requires t in xs
    requires forall x :: x in xs && value(x) == value(t) ==> x == t
    ensures FirstWithValue(xs, value, value(t)) == Some(t)
  {
    if xs[0] != t {
      assert t in xs[1..];
      FirstWithValueFinds(xs[1..], value, t);
    }
  }

  /** ComprehensionTlvTag.fromInt: the tag with this value, or null. */
  function TagFromInt(v: int): (r: Option<ComprehensionTlvTag>)
    ensures r.Some? ==> TagValue(r.value) == v
    ensures r.None? <==> forall t :: TagValue(t) != v
  {
    AllTagsListed();
    FirstWithValue(TAGS, TagValue, v)
  }

  lemma AllTagsListed()
    ensures forall t :: t in TAGS
  {
    forall t ensures t in TAGS { TagListed(t); }
  }

  lemma TagListed(t: ComprehensionTlvTag)
    ensures t in TAGS
  {
    match t {
      case COMMAND_DETAILS => assert TAGS[0] == t;
      case DEVICE_IDENTITIES => assert TAGS[1] == t;
      case RESULT => assert TAGS[2] == t;
      case DURATION => assert TAGS[3] == t;
      case ALPHA_ID => assert TAGS[4] == t;
      case USSD_STRING => assert TAGS[5] == t;
      case TEXT_STRING => assert TAGS[6] == t;
      case TONE => assert TAGS[7] == t;
      case ITEM => assert TAGS[8] == t;
      case ITEM_ID => assert TAGS[9] == t;
      case RESPONSE_LENGTH => assert TAGS[10] == t;
      case FILE_LIST => assert TAGS[11] == t;
      case HELP_REQUEST => assert TAGS[12] == t;
      case DEFAULT_TEXT => assert TAGS[13] == t;
      case EVENT_LIST => assert TAGS[14] == t;
      case ICON_ID => assert TAGS[15] == t;
      case ITEM_ICON_ID_LIST => assert TAGS[16] == t;
      case DATETIME_TIMEZONE => assert TAGS[17] == t;
      case IMMEDIATE_RESPONSE => assert TAGS[18] == t;
      case LANGUAGE => assert TAGS[19] == t;
      case URL => assert TAGS[20] == t;
      case BROWSER_TERMINATION_CAUSE => assert TAGS[21] == t;
      case TEXT_ATTRIBUTE => assert TAGS[22] == t;
    }
  }

  /** fromInt inverts value(): the tag values are pairwise distinct. */
  lemma TagFromIntOfValue(t: ComprehensionTlvTag)
    ensures TagFromInt(TagValue(t)) == Some(t)
  {
    forall x | x in TAGS && TagValue(x) == TagValue(t) ensures x == t { TagValueInjective(x, t); }
    AllTagsListed();
    FirstWithValueFinds(TAGS, TagValue, t);
  }

  lemma TagValueInjective(a: ComprehensionTlvTag, b: ComprehensionTlvTag)
    requires TagValue(a) == TagValue(b)
    ensures a == b
  {
    match a { case _ => match b { case _ => } }
  }

  /** AppInterface.CommandType.fromInt: the command type with this value, or null. */
  function CommandTypeFromInt(v: int): (r: Option<CommandType>)
    ensures r.Some? ==> CommandTypeValue(r.value) == v
    ensures r.None? <==> forall c :: CommandTypeValue(c) != v
  {
    AllCommandTypesListed();
    FirstWithValue(COMMAND_TYPES, CommandTypeValue, v)
  }

  lemma AllCommandTypesListed()
    ensures forall c :: c in COMMAND_TYPES
  {
    forall c ensures c in COMMAND_TYPES { CommandTypeListed(c); }
  }

  lemma CommandTypeListed(c: CommandType)
    ensures c in COMMAND_TYPES
  {
    match c {
      case REFRESH => assert COMMAND_TYPES[0] == c;
      case SET_UP_EVENT_LIST => assert COMMAND_TYPES[1] == c;
      case SET_UP_CALL => assert COMMAND_TYPES[2] == c;
      case SEND_SS => assert COMMAND_TYPES[3] == c;
      case SEND_USSD => assert COMMAND_TYPES[4] == c;
      case SEND_SMS => assert COMMAND_TYPES[5] == c;
      case SEND_DTMF => assert COMMAND_TYPES[6] == c;
      case LAUNCH_BROWSER => assert COMMAND_TYPES[7] == c;
      case PLAY_TONE => assert COMMAND_TYPES[8] == c;
      case DISPLAY_TEXT => assert COMMAND_TYPES[9] == c;
      case GET_INKEY => assert COMMAND_TYPES[10] == c;
      case GET_INPUT => assert COMMAND_TYPES[11] == c;
      case SELECT_ITEM => assert COMMAND_TYPES[12] == c;
      case SET_UP_MENU => assert COMMAND_TYPES[13] == c;
      case PROVIDE_LOCAL_INFORMATION => assert COMMAND_TYPES[14] == c;
      case SET_UP_IDLE_MODE_TEXT => assert COMMAND_TYPES[15] == c;
      case OPEN_CHANNEL => assert COMMAND_TYPES[16] == c;
      case CLOSE_CHANNEL => assert COMMAND_TYPES[17] == c;
      case RECEIVE_DATA => assert COMMAND_TYPES[18] == c;
      case SEND_DATA => assert COMMAND_TYPES[19] == c;
      case GET_CHANNEL_STATUS => assert COMMAND_TYPES[20] == c;
    }
  }

  lemma CommandTypeValueInjective(a: CommandType, b: CommandType)
    requires CommandTypeValue(a) == CommandTypeValue(b)
    ensures a == b
  {
    match a { case _ => match b { case _ => } }
  }

  /** fromInt inverts value() for the command types as well. */
  lemma CommandTypeFromIntOfValue(c: CommandType)
    ensures CommandTypeFromInt(CommandTypeValue(c)) == Some(c)
  {
    forall x | x in COMMAND_TYPES && CommandTypeValue(x) == CommandTypeValue(c) ensures x == c {
      CommandTypeValueInjective(x, c);
    }
    AllCommandTypesListed();
    FirstWithValueFinds(COMMAND_TYPES, CommandTypeValue, c);
  }

  // ---------------------------------------------------------------------------
  // Result codes (ETSI TS 102 223 section 8.12)
  // ---------------------------------------------------------------------------

  datatype ResultCode =
    | OK | PRFRMD_WITH_PARTIAL_COMPREHENSION | PRFRMD_WITH_MISSING_INFO
    | PRFRMD_WITH_ADDITIONAL_EFS_READ | PRFRMD_ICON_NOT_DISPLAYED | PRFRMD_MODIFIED_BY_NAA
    | PRFRMD_LIMITED_SERVICE | PRFRMD_WITH_MODIFICATION | PRFRMD_NAA_NOT_ACTIVE
    | PRFRMD_TONE_NOT_PLAYED | UICC_SESSION_TERM_BY_USER | BACKWARD_MOVE_BY_USER
    | NO_RESPONSE_FROM_USER | HELP_INFO_REQUIRED | TERMINAL_CRNTLY_UNABLE_TO_PROCESS
    | LAUNCH_BROWSER_ERROR | BEYOND_TERMINAL_CAPABILITY
    | OtherResult(code: byte)   // any other general result

  function ResultValue(r: ResultCode): byte
  {
    match r
    case OK => 0x00
    case PRFRMD_WITH_PARTIAL_COMPREHENSION => 0x01
    case PRFRMD_WITH_MISSING_INFO => 0x02
    case PRFRMD_WITH_ADDITIONAL_EFS_READ => 0x03
    case PRFRMD_ICON_NOT_DISPLAYED => 0x04
    case PRFRMD_MODIFIED_BY_NAA => 0x05
    case PRFRMD_LIMITED_SERVICE => 0x06
    case PRFRMD_WITH_MODIFICATION => 0x07
    case PRFRMD_NAA_NOT_ACTIVE => 0x08
    case PRFRMD_TONE_NOT_PLAYED => 0x09
    case UICC_SESSION_TERM_BY_USER => 0x10
    case BACKWARD_MOVE_BY_USER => 0x11
    case NO_RESPONSE_FROM_USER => 0x12
    case HELP_INFO_REQUIRED => 0x13
    case TERMINAL_CRNTLY_UNABLE_TO_PROCESS => 0x20
    case LAUNCH_BROWSER_ERROR => 0x26
    case BEYOND_TERMINAL_CAPABILITY => 0x30
    case OtherResult(code) => code
  }

  // ---------------------------------------------------------------------------
  // Semi-octets: byteToBCD and getTZOffSetByte
  // ---------------------------------------------------------------------------

  /** byteToBCD: tens in the low nibble, units in the high nibble; 0 outside 0..99. */
  function ByteToBcd(value: int): (b: byte)
    ensures 0 <= value <= 99 ==> b % 16 == value / 10 && b / 16 == value % 10
    ensures !(0 <= value <= 99) ==> b == 0
  {
    // the tens digit is below 16, so `|` with the shifted units is a sum
    if 0 <= value <= 99 then value / 10 + (value % 10) * 16 else 0
  }

  /** Reads a nibble-swapped semi-octet pair back as a number. */
  function BcdValue(b: byte): int
  {
    (b % 16) * 10 + b / 16
  }

  lemma BcdRoundTrip(value: int)
    requires 0 <= value <= 99
    ensures BcdValue(ByteToBcd(value)) == value
  {
  }

  /** Every byte whose two nibbles are decimal digits is the encoding of its value. */
  lemma BcdEncodesEveryDigitPair(b: byte)
    requires b % 16 <= 9 && b / 16 <= 9
    ensures ByteToBcd(BcdValue(b)) == b
  {
    var tens, units := b % 16, b / 16;
    var v := tens * 10 + units;
    assert v / 10 == tens && v % 10 == units;
    assert b == tens + units * 16;
  }

  type Long = x: int | -0x8000_0000_0000_0000 <= x < 0x8000_0000_0000_0000

  const QUARTER_HOUR_MS: int := 15 * 60 * 1000

  /** Java's `/` on long: truncates toward zero. */
  function JavaDiv(a: int, b: int): int
    requires b > 0
  {
    if a >= 0 then a / b else -((-a) / b)
  }

  /** Java's (int) cast of a long: keeps the low 32 bits, two's complement. */
  function ToInt(x: int): int
  {
    (x + 0x8000_0000) % 0x1_0000_0000 - 0x8000_0000
  }

  /** `b | 0x08` on a byte. */
  function WithBit3(b: byte): (r: byte)
    ensures (r / 8) % 2 == 1 && r / 16 == b / 16 && r % 8 == b % 8
  {
    if (b / 8) % 2 == 1 then b else b + 8
  }

  /** The byte getTZOffSetByte builds from a magnitude and a sign. */
  function SignedSemiOctet(m: int, negative: bool): byte
  {
    var bcd := ByteToBcd(m);
    if negative then WithBit3(bcd) else bcd
  }

  /** getTZOffSetByte: the offset in quarter hours, semi-octet coded, bit 3 set for a negative offset. */
  function TzOffsetByte(offset: Long): byte
  {
    var sign := offset < 0;
    var quarters := JavaDiv(offset, QUARTER_HOUR_MS);
    var magnitude := (if sign then -1 else 1) * quarters;
    SignedSemiOctet(ToInt(magnitude), sign)
  }

  /** Reads a time-zone byte back: bit 3 is the sign, the rest a swapped semi-octet pair. */
  function TzOffsetValue(b: byte): int
  {
    (if (b / 8) % 2 == 1 then -1 else 1) * ((b % 8) * 10 + b / 16)
  }

  /**
   * For any offset under 20 hours (the tens digit then stays below 8), the
   * byte carries the truncated number of quarter hours, and bit 3 is set
   * exactly when the offset is negative.
   */
  lemma TzOffsetRoundTrip(offset: Long)
    requires -80 * QUARTER_HOUR_MS < offset < 80 * QUARTER_HOUR_MS
    ensures TzOffsetValue(TzOffsetByte(offset)) == JavaDiv(offset, QUARTER_HOUR_MS)
    ensures (TzOffsetByte(offset) / 8) % 2 == 1 <==> offset < 0
  {
    var q := JavaDiv(offset, QUARTER_HOUR_MS);
    var m := if offset < 0 then -q else q;
    QuartersBelow80(offset);
    assert ToInt(m) == m;
    SignedSemiOctetValue(m, offset < 0);
  }

  /** A magnitude below 80 and its sign survive the semi-octet coding. */
  lemma SignedSemiOctetValue(m: int, negative: bool)
    requires 0 <= m < 80
    ensures TzOffsetValue(SignedSemiOctet(m, negative)) == if negative then -m else m
    ensures (SignedSemiOctet(m, negative) / 8) % 2 == 1 <==> negative
  {
    var bcd := ByteToBcd(m);
    Bit3Clear(bcd);
    assert bcd % 8 == m / 10 && bcd / 16 == m % 10;
    if negative {
      var r := WithBit3(bcd);
      var magnitude: int := (bcd % 8) * 10 + bcd / 16;
      assert TzOffsetValue(r) == -magnitude;
    }
  }

  lemma QuartersBelow80(offset: int)
    requires -80 * QUARTER_HOUR_MS < offset < 80 * QUARTER_HOUR_MS
    ensures var q := JavaDiv(offset, QUARTER_HOUR_MS); 0 <= (if offset < 0 then -q else q) < 80
  {
  }

  /** A semi-octet pair whose low digit is below 8 has bit 3 clear. */
  lemma Bit3Clear(b: byte)
    requires b % 16 < 8
    ensures (b / 8) % 2 == 0 && b % 8 == b % 16
  {
    var u := b / 16;
    assert b == 16 * u + b % 16;
    assert b / 8 == 2 * u;
  }

  // ---------------------------------------------------------------------------
  // TERMINAL RESPONSE (ETSI TS 102 223 section 6.8)
  // ---------------------------------------------------------------------------

  /** The comprehension-required flag of a COMPREHENSION-TLV tag. */
  const CR: byte := 0x80

  const DEV_ID_KEYPAD: byte := 0x01
  const DEV_ID_DISPLAY: byte := 0x02
  const DEV_ID_EARPIECE: byte := 0x03
  const DEV_ID_UICC: byte := 0x81
  const DEV_ID_TERMINAL: byte := 0x82
  const DEV_ID_NETWORK: byte := 0x83

  /** Time unit "seconds" of a DURATION object (ETSI TS 102 223 section 8.8). */
  const TIME_UNIT_SECOND: byte := 0x01

  /** PROVIDE LOCAL INFORMATION qualifiers (ETSI TS 102 223 section 8.6). */
  const DATETIME_TIMEZONE_SETTING: byte := 0x03
  const LANGUAGE_SETTING: byte := 0x04

  datatype CommandDetails = CommandDetails(compRequired: bool, commandNumber: byte,
                                           typeOfCommand: byte, commandQualifier: byte)

  datatype Duration = Duration(timeInterval: int)

  datatype Input = Input(yesNo: bool, ucs2: bool, packed: bool, duration: Option<Duration>)

  /** The response objects whose format() writes the command-specific TLVs. */
  datatype ResponseData =
    | SelectItemResponseData(id: int)
    | GetInkeyInputResponseData(text: string, ucs2: bool, packed: bool)
    | GetInkeyYesNoResponseData(yesNo: bool)

  function CommandDetailsTlv(d: CommandDetails): seq<byte>
  {
    [if d.compRequired then CR + TagValue(COMMAND_DETAILS) else TagValue(COMMAND_DETAILS),
     0x03, d.commandNumber, d.typeOfCommand, d.commandQualifier]
  }

  /** DEVICE IDENTITIES from the terminal to the UICC; its CR flag is clear (Min = N). */
  const TERMINAL_TO_UICC: seq<byte> := [TagValue(DEVICE_IDENTITIES), 0x02, DEV_ID_TERMINAL, DEV_ID_UICC]

  function ResultTlv(code: ResultCode, includeAdditionalInfo: bool, additionalInfo: int): seq<byte>
  {
    [CR + TagValue(RESULT), if includeAdditionalInfo then 2 else 1, ResultValue(code)]
    + (if includeAdditionalInfo then [LowByte(additionalInfo)] else [])
  }

  /** sendTerminalResponse's bytes, given what follows the result object. */
  function TerminalResponse(d: CommandDetails, code: ResultCode, includeAdditionalInfo: bool,
                            additionalInfo: int, optional: seq<byte>): (r: seq<byte>)
    ensures |r| >= 12
    ensures r[..5] == [if d.compRequired then 0x81 else 0x01, 0x03, d.commandNumber, d.typeOfCommand, d.commandQualifier]
    ensures r[5..9] == [0x02, 0x02, 0x82, 0x81]
    ensures r[9..12] == [0x83, if includeAdditionalInfo then 2 else 1, ResultValue(code)]
    ensures r[12..] == (if includeAdditionalInfo then [LowByte(additionalInfo)] else []) + optional
  {
    CommandDetailsTlv(d) + TERMINAL_TO_UICC + ResultTlv(code, includeAdditionalInfo, additionalInfo) + optional
  }

  /** getInKeyResponse: a DURATION object in seconds. */
  function InKeyDuration(duration: Duration): seq<byte>
  {
    [TagValue(DURATION), 0x02, TIME_UNIT_SECOND, LowByte(duration.timeInterval)]
  }

  /**
   * encodeOptionalTags. pli stands for getPliResponse, which reads the
   * language property or the clock and zone: the bytes it writes for a qualifier.
   */
  function OptionalTags(d: CommandDetails, code: ResultCode, cmdInput: Option<Input>,
                        pli: byte -> seq<byte>): (r: seq<byte>)
    ensures r != [] ==> d.typeOfCommand in {CommandTypeValue(GET_INKEY), CommandTypeValue(PROVIDE_LOCAL_INFORMATION)}
    ensures d.typeOfCommand == CommandTypeValue(GET_INKEY) ==>
      r == (if ResultValue(code) == ResultValue(NO_RESPONSE_FROM_USER) && cmdInput.Some? && cmdInput.value.duration.Some?
            then InKeyDuration(cmdInput.value.duration.value) else [])
  {
    CommandTypeFromIntOfValue(GET_INKEY);
    var cmdType := CommandTypeFromInt(d.typeOfCommand);
    if cmdType == Some(GET_INKEY) then
      if ResultValue(code) == ResultValue(NO_RESPONSE_FROM_USER) && cmdInput.Some? && cmdInput.value.duration.Some?
      then InKeyDuration(cmdInput.value.duration.value)
      else []
    else if cmdType == Some(PROVIDE_LOCAL_INFORMATION) then
      if ResultValue(code) == ResultValue(OK)
         && (d.commandQualifier == LANGUAGE_SETTING || d.commandQualifier == DATETIME_TIMEZONE_SETTING)
      then pli(d.commandQualifier)
      else []
    else []
  }

  /** The fixed part of a terminal response, as the UICC reads it. */
  datatype ResponseHeader = ResponseHeader(cmdDet: CommandDetails, result: byte,
                                           additionalInfo: Option<byte>, optional: seq<byte>)

  function ParseTerminalResponse(r: seq<byte>): Option<ResponseHeader>
  {
    if |r| < 12 || r[0] % 128 != TagValue(COMMAND_DETAILS) || r[1] != 3 || r[5..9] != TERMINAL_TO_UICC
       || r[9] != CR + TagValue(RESULT) || !(r[10] == 1 || r[10] == 2) then None
    else
      var d := CommandDetails(r[0] >= 128, r[2], r[3], r[4]);
      if r[10] == 1 then Some(ResponseHeader(d, r[11], None, r[12..]))
      else if |r| < 13 then None
      else Some(ResponseHeader(d, r[11], Some(r[12]), r[13..]))
  }

  /** A terminal response reads back as the command details, result and additional information written. */
  lemma TerminalResponseRoundTrip(d: CommandDetails, code: ResultCode, includeAdditionalInfo: bool,
                                  additionalInfo: int, optional: seq<byte>)
    ensures ParseTerminalResponse(TerminalResponse(d, code, includeAdditionalInfo, additionalInfo, optional))
         == Some(ResponseHeader(d, ResultValue(code),
                                if includeAdditionalInfo then Some(LowByte(additionalInfo)) else None,
                                optional))
  {
    var r := TerminalResponse(d, code, includeAdditionalInfo, additionalInfo, optional);
    assert r[5..9] == TERMINAL_TO_UICC;
    if includeAdditionalInfo {
      assert r[13..] == optional;
    } else {
      assert r[12..] == optional;
    }
  }

  // ---------------------------------------------------------------------------
  // ENVELOPEs: MENU SELECTION and EVENT DOWNLOAD (ETSI TS 102 223 section 7)
  // ---------------------------------------------------------------------------

  const BER_MENU_SELECTION_TAG: byte := 0xD3
  const BER_EVENT_DOWNLOAD_TAG: byte := 0xD6

  /** Events of an EVENT LIST (ETSI TS 102 223 section 8.25). */
  const IDLE_SCREEN_AVAILABLE_EVENT: int := 0x05
  const LANGUAGE_SELECTION_EVENT: int := 0x07
  const BROWSER_TERMINATION_EVENT: int := 0x08

  /** sendMenuSelection's envelope, with its length byte filled in. */
  function MenuSelectionEnvelope(menuId: int, helpRequired: bool): (e: seq<byte>)
    ensures |e| >= 9 && e[1] == |e| - 2
    ensures e[0] == BER_MENU_SELECTION_TAG
    ensures e[2..9] == [0x82, 0x02, DEV_ID_KEYPAD, DEV_ID_UICC, 0x90, 0x01, LowByte(menuId)]
    ensures e[9..] == (if helpRequired then [0x15, 0x00] else [])
  {
    var body := [CR + TagValue(DEVICE_IDENTITIES), 0x02, DEV_ID_KEYPAD, DEV_ID_UICC,
                 CR + TagValue(ITEM_ID), 0x01, LowByte(menuId)]
                + (if helpRequired then [TagValue(HELP_REQUEST), 0x00] else []);
    [BER_MENU_SELECTION_TAG, |body|] + body
  }

  /** The UICC's reading of a menu selection: the item chosen and whether help was asked for. */
  function ParseMenuSelection(e: seq<byte>): Option<(byte, bool)>
  {
    if |e| < 9 || e[0] != BER_MENU_SELECTION_TAG || e[1] != |e| - 2
       || e[2..8] != [0x82, 0x02, DEV_ID_KEYPAD, DEV_ID_UICC, 0x90, 0x01] then None
    else if e[9..] == [] then Some((e[8], false))
    else if e[9..] == [0x15, 0x00] then Some((e[8], true))
    else None
  }

  lemma MenuSelectionRoundTrip(menuId: int, helpRequired: bool)
    ensures ParseMenuSelection(MenuSelectionEnvelope(menuId, helpRequired)) == Some((LowByte(menuId), helpRequired))
  {
    var e := MenuSelectionEnvelope(menuId, helpRequired);
    assert e[2..8] == e[2..9][..6];
  }

  /** What eventDownload writes after the device identities for each supported event. */
  function EventObjects(event: int): seq<byte>
  {
    if event == BROWSER_TERMINATION_EVENT then [CR + TagValue(BROWSER_TERMINATION_CAUSE), 0x01]
    else if event == LANGUAGE_SELECTION_EVENT then [CR + TagValue(LANGUAGE), 0x02]
    else []
  }

  function Bytes(info: Option<seq<byte>>): seq<byte>
  {
    if info.Some? then info.value else []
  }

  /** eventDownload's envelope; the length byte is the low byte of the length. */
  function EventDownloadEnvelope(event: int, sourceId: int, destinationId: int,
                                 additionalInfo: Option<seq<byte>>): (e: seq<byte>)
    ensures |e| >= 9 && e[1] == LowByte(|e| - 2)
    ensures e[0] == BER_EVENT_DOWNLOAD_TAG
    ensures e[2..5] == [0x99, 0x01, LowByte(event)]
    ensures e[5..9] == [0x82, 0x02, LowByte(sourceId), LowByte(destinationId)]
    ensures e[9..] == EventObjects(event) + Bytes(additionalInfo)
  {
    var body := [CR + TagValue(EVENT_LIST), 0x01, LowByte(event),
                 CR + TagValue(DEVICE_IDENTITIES), 0x02, LowByte(sourceId), LowByte(destinationId)]
                + EventObjects(event) + Bytes(additionalInfo);
    [BER_EVENT_DOWNLOAD_TAG, LowByte(|body|)] + body
  }

  /** Writing the length byte of a tag-length-body envelope whose length byte was a placeholder. */
  lemma LengthPatched(tag: byte, len: byte, body: seq<byte>)
    ensures ([tag, 0x00] + body)[1 := len] == [tag, len] + body
  {
  }

  datatype EventHeader = EventHeader(event: byte, source: byte, destination: byte, objects: seq<byte>)

  function ParseEventDownload(e: seq<byte>): Option<EventHeader>
  {
    if |e| < 9 || e[0] != BER_EVENT_DOWNLOAD_TAG || e[1] != LowByte(|e| - 2)
       || e[2] != 0x99 || e[3] != 0x01 || e[5] != 0x82 || e[6] != 0x02 then None
    else Some(EventHeader(e[4], e[7], e[8], e[9..]))
  }

  lemma EventDownloadRoundTrip(event: int, sourceId: int, destinationId: int, additionalInfo: Option<seq<byte>>)
    ensures ParseEventDownload(EventDownloadEnvelope(event, sourceId, destinationId, additionalInfo))
         == Some(EventHeader(LowByte(event), LowByte(sourceId), LowByte(destinationId),
                             EventObjects(event) + Bytes(additionalInfo)))
  {
    var e := EventDownloadEnvelope(event, sourceId, destinationId, additionalInfo);
    assert e[2] == e[2..5][0] && e[3] == e[2..5][1] && e[4] == e[2..5][2];
    assert e[5] == e[5..9][0] && e[6] == e[5..9][1] && e[7] == e[5..9][2] && e[8] == e[5..9][3];
  }

  // ---------------------------------------------------------------------------
  // Commands, menus and responses
  // ---------------------------------------------------------------------------

  type MenuItem(==)

  datatype Menu = Menu(items: Option<seq<Option<MenuItem>>>)

  /** The decoded proactive command. */
  datatype CommandParams = CommandParams(
    cmdDet: CommandDetails, commandType: CommandType, loadIconFailed: bool,
    menu: Option<Menu>, responseNeeded: bool, input: Option<Input>, eventList: seq<int>)

  /**
   * The message kept as the current command. It shares its CommandDetails
   * with the parameters, so a rewrite of the parameters' type shows in it.
   */
  datatype CatCmdMessage = CatCmdMessage(cmdDet: CommandDetails, menu: Option<Menu>,
                                         responseNeeded: bool, input: Option<Input>, eventList: seq<int>)

  function Message(p: CommandParams): CatCmdMessage
  {
    CatCmdMessage(p.cmdDet, p.menu, p.responseNeeded, p.input, p.eventList)
  }

  /** What the decoder guarantees: the type matches the details, and input commands carry their input. */
  predicate WellFormed(p: CommandParams)
  {
    && p.cmdDet.typeOfCommand == CommandTypeValue(p.commandType)
    && CarriesInput(Message(p))
  }

  /** A kept command whose details name an input command has its input. */
  predicate CarriesInput(m: CatCmdMessage)
  {
    m.cmdDet.typeOfCommand in {CommandTypeValue(GET_INPUT), CommandTypeValue(GET_INKEY)} ==> m.input.Some?
  }

  predicate SupportedEvent(event: int)
  {
    event == IDLE_SCREEN_AVAILABLE_EVENT || event == LANGUAGE_SELECTION_EVENT
  }

  /** isSupportedSetupEventCommand: every listed event is one the framework handles. */
  method IsSupportedSetupEventCommand(eventList: seq<int>) returns (flag: bool)
    ensures flag <==> forall i :: 0 <= i < |eventList| ==> SupportedEvent(eventList[i])
  {
    flag := true;
    var i := 0;
    while i < |eventList|
      invariant 0 <= i <= |eventList|
      invariant flag <==> forall j :: 0 <= j < i ==> SupportedEvent(eventList[j])
    {
      if !SupportedEvent(eventList[i]) {
        flag := false;
      }
      i := i + 1;
    }
  }

  /** removeMenu: a missing menu or item list, or a single null item, removes the menu. */
  predicate RemoveMenu(menu: Option<Menu>)
  {
    menu.None? || menu.value.items.None? || (|menu.value.items.value| == 1 && menu.value.items.value[0].None?)
  }

  datatype CatResponseMessage = CatResponseMessage(
    cmdDet: CommandDetails, resCode: ResultCode, usersMenuSelection: int, usersInput: string,
    usersYesNoSelection: bool, usersConfirm: bool, eventValue: int, addedInfo: Option<seq<byte>>,
    includeAdditionalInfo: bool, additionalInfo: int)

  /** validateResponse; CommandDetails.compareTo is taken as field-wise equality. */
  predicate ValidateResponse(m: CatResponseMessage, current: Option<CatCmdMessage>)
  {
    if m.cmdDet.typeOfCommand == CommandTypeValue(SET_UP_EVENT_LIST)
       || m.cmdDet.typeOfCommand == CommandTypeValue(SET_UP_MENU) then true
    else current.Some? && m.cmdDet == current.value.cmdDet
  }

  /** The result codes for which the command type decides the response. */
  predicate PerformedOrHelp(code: ResultCode)
  {
    code in {HELP_INFO_REQUIRED, OK, PRFRMD_WITH_PARTIAL_COMPREHENSION, PRFRMD_WITH_MISSING_INFO,
             PRFRMD_WITH_ADDITIONAL_EFS_READ, PRFRMD_ICON_NOT_DISPLAYED, PRFRMD_MODIFIED_BY_NAA,
             PRFRMD_LIMITED_SERVICE, PRFRMD_WITH_MODIFICATION, PRFRMD_NAA_NOT_ACTIVE,
             PRFRMD_TONE_NOT_PLAYED, LAUNCH_BROWSER_ERROR}
  }

  /** What handleCmdResponse does with a response. */
  datatype Effect =
    | Ignore
    | SendMenuSelection(menuId: int, helpRequired: bool)
    | ConfirmCallSetup(confirmed: bool)
    | SendEventDownload(event: int, sourceId: int, destinationId: int, addedInfo: Option<seq<byte>>)
    | Respond(cmdDet: CommandDetails, code: ResultCode, includeAdditionalInfo: bool,
              additionalInfo: int, resp: Option<ResponseData>)

  /** handleCmdResponse's switch over the result code and the command type. */
  function ResponseEffect(m: CatResponseMessage, current: Option<CatCmdMessage>): (e: Effect)
    requires current.Some? ==> CarriesInput(current.value)
    ensures !ValidateResponse(m, current) ==> e == Ignore
    ensures e.SendMenuSelection? <==>
      ValidateResponse(m, current) && PerformedOrHelp(m.resCode) && m.cmdDet.typeOfCommand == CommandTypeValue(SET_UP_MENU)
    ensures e.SendMenuSelection? ==> e == SendMenuSelection(m.usersMenuSelection, m.resCode == HELP_INFO_REQUIRED)
    ensures e.SendEventDownload? ==>
      e.event == m.eventValue && e.destinationId == DEV_ID_UICC as int && e.addedInfo == m.addedInfo &&
      (e.sourceId == DEV_ID_DISPLAY as int <==> m.eventValue == IDLE_SCREEN_AVAILABLE_EVENT)
    ensures e.Respond? ==> e.cmdDet == m.cmdDet && e.code == m.resCode
    ensures ValidateResponse(m, current) && m.resCode == TERMINAL_CRNTLY_UNABLE_TO_PROCESS ==>
      e == Respond(m.cmdDet, m.resCode, true, 0x01, None)
    ensures e.Respond? && e.resp.Some? ==> PerformedOrHelp(m.resCode)
  {
    if !ValidateResponse(m, current) then Ignore
    else if PerformedOrHelp(m.resCode) then PerformedEffect(m, current)
    else if m.resCode == TERMINAL_CRNTLY_UNABLE_TO_PROCESS then
      // the screen is busy: additional information 0x01
      Respond(m.cmdDet, m.resCode, true, 0x01, None)
    else if m.resCode in {NO_RESPONSE_FROM_USER, UICC_SESSION_TERM_BY_USER, BACKWARD_MOVE_BY_USER} then
      Respond(m.cmdDet, m.resCode, m.includeAdditionalInfo, m.additionalInfo, None)
    else Ignore
  }

  /** The inner switch over the command type, for a performed (or help) result. */
  function PerformedEffect(m: CatResponseMessage, current: Option<CatCmdMessage>): (e: Effect)
    requires ValidateResponse(m, current) && PerformedOrHelp(m.resCode)
    requires current.Some? ==> CarriesInput(current.value)
    ensures e.SendMenuSelection? <==> m.cmdDet.typeOfCommand == CommandTypeValue(SET_UP_MENU)
    ensures e.SendMenuSelection? ==> e == SendMenuSelection(m.usersMenuSelection, m.resCode == HELP_INFO_REQUIRED)
    ensures e.SendEventDownload? ==>
      e.event == m.eventValue && e.destinationId == DEV_ID_UICC as int && e.addedInfo == m.addedInfo &&
      (e.sourceId == DEV_ID_DISPLAY as int <==> m.eventValue == IDLE_SCREEN_AVAILABLE_EVENT)
    ensures e.Respond? ==> e.cmdDet == m.cmdDet && e.code == m.resCode
    ensures e != Ignore
  {
    CommandTypeFromIntOfValue(SET_UP_MENU);
    var cmdType := CommandTypeFromInt(m.cmdDet.typeOfCommand);
    var helpRequired := m.resCode == HELP_INFO_REQUIRED;
    if cmdType == Some(SET_UP_MENU) then SendMenuSelection(m.usersMenuSelection, helpRequired)
    else if cmdType == Some(SELECT_ITEM) then
      Respond(m.cmdDet, m.resCode, m.includeAdditionalInfo, m.additionalInfo, Some(SelectItemResponseData(m.usersMenuSelection)))
    else if cmdType == Some(GET_INPUT) || cmdType == Some(GET_INKEY) then
      // neither SET UP MENU nor SET UP EVENT LIST: the response matched the current command
      Respond(m.cmdDet, m.resCode, m.includeAdditionalInfo, m.additionalInfo,
              InputResponse(m, current.value.input.value, helpRequired))
    else if cmdType == Some(OPEN_CHANNEL) || cmdType == Some(SET_UP_CALL) then ConfirmCallSetup(m.usersConfirm)
    else if cmdType == Some(SET_UP_EVENT_LIST) then
      var source := if m.eventValue == IDLE_SCREEN_AVAILABLE_EVENT then DEV_ID_DISPLAY else DEV_ID_TERMINAL;
      SendEventDownload(m.eventValue, source as int, DEV_ID_UICC as int, m.addedInfo)
    else Respond(m.cmdDet, m.resCode, m.includeAdditionalInfo, m.additionalInfo, None)
  }

  /** The text or yes/no answer to GET INPUT / GET INKEY; no text when help was asked for. */
  function InputResponse(m: CatResponseMessage, input: Input, helpRequired: bool): Option<ResponseData>
  {
    if !input.yesNo then
      if !helpRequired then Some(GetInkeyInputResponseData(m.usersInput, input.ucs2, input.packed)) else None
    else Some(GetInkeyYesNoResponseData(m.usersYesNoSelection))
  }

  /** The result code of the terminal response that SET UP MENU, DISPLAY TEXT and SET UP IDLE MODE TEXT get. */
  function IconResult(p: CommandParams): ResultCode
  {
    if p.loadIconFailed then PRFRMD_ICON_NOT_DISPLAYED else OK
  }

  predicate AllSupported(eventList: seq<int>)
  {
    forall i :: 0 <= i < |eventList| ==> SupportedEvent(eventList[i])
  }

  /** The terminal response handleProactiveCommand sends at once, if any. */
  function ProactiveResult(p: CommandParams): (code: Option<ResultCode>)
    ensures code.Some? <==>
      p.commandType in {SET_UP_MENU, SET_UP_IDLE_MODE_TEXT, SET_UP_EVENT_LIST, PROVIDE_LOCAL_INFORMATION,
                        CLOSE_CHANNEL, RECEIVE_DATA, SEND_DATA, GET_CHANNEL_STATUS}
      || (p.commandType == DISPLAY_TEXT && !p.responseNeeded)
    ensures p.commandType == SET_UP_EVENT_LIST ==> (code == Some(OK) <==> AllSupported(p.eventList))
    ensures code.Some? && code.value !in {OK, BEYOND_TERMINAL_CAPABILITY} ==>
      code == Some(PRFRMD_ICON_NOT_DISPLAYED) && p.loadIconFailed
  {
    match p.commandType
    case SET_UP_MENU => Some(IconResult(p))
    case DISPLAY_TEXT => if !p.responseNeeded then Some(IconResult(p)) else None
    case SET_UP_IDLE_MODE_TEXT => Some(IconResult(p))
    case SET_UP_EVENT_LIST => Some(if AllSupported(p.eventList) then OK else BEYOND_TERMINAL_CAPABILITY)
    case PROVIDE_LOCAL_INFORMATION => Some(OK)
    case CLOSE_CHANNEL => Some(OK)
    case RECEIVE_DATA => Some(OK)
    case SEND_DATA => Some(OK)
    case GET_CHANNEL_STATUS => Some(OK)
    case _ => None
  }

  /** Writes the bytes of info one at a time after those already in buf. */
  method AppendBytes(buf: seq<byte>, info: seq<byte>) returns (out: seq<byte>)
    ensures out == buf + info
  {
    out := buf;
    var k := 0;
    while k < |info|
      invariant 0 <= k <= |info|
      invariant out == buf + info[..k]
    {
      out := out + [info[k]];
      k := k + 1;
    }
    assert info[..k] == info;
  }

  /** handleProactiveCommand's switch: which terminal response, if any, goes out at once. */
  method ImmediateResult(p: CommandParams) returns (code: Option<ResultCode>)
    ensures code == ProactiveResult(p)
  {
    match p.commandType {
      case SET_UP_MENU =>
        code := Some(IconResult(p));
      case DISPLAY_TEXT =>
        // when the application need not respond, the response goes out now
        code := if !p.responseNeeded then Some(IconResult(p)) else None;
      case SET_UP_IDLE_MODE_TEXT =>
        code := Some(IconResult(p));
      case SET_UP_EVENT_LIST =>
        var supported := IsSupportedSetupEventCommand(p.eventList);
        code := Some(if supported then OK else BEYOND_TERMINAL_CAPABILITY);
      case PROVIDE_LOCAL_INFORMATION =>
        code := Some(OK);
      case CLOSE_CHANNEL =>
        code := Some(OK);
      case RECEIVE_DATA =>
        code := Some(OK);
      case SEND_DATA =>
        code := Some(OK);
      case GET_CHANNEL_STATUS =>
        code := Some(OK);
      case _ =>
        // REFRESH, and the commands the application answers
        code := None;
    }
  }

  /** The message kept for a command: a REFRESH is kept as SET UP IDLE MODE TEXT. */
  function Kept(p: CommandParams): CatCmdMessage
  {
    if p.commandType == REFRESH
    then Message(p).(cmdDet := p.cmdDet.(typeOfCommand := CommandTypeValue(SET_UP_IDLE_MODE_TEXT)))
    else Message(p)
  }

  /** The command the service keeps still carries its input: a rewritten REFRESH is not an input command. */
  lemma KeptCarriesInput(p: CommandParams)
    requires WellFormed(p)
    ensures CarriesInput(Kept(p))
  {
    if p.commandType == REFRESH {
      assert Kept(p).cmdDet.typeOfCommand == CommandTypeValue(SET_UP_IDLE_MODE_TEXT);
    }
  }

  // ---------------------------------------------------------------------------
  // The service
  // ---------------------------------------------------------------------------

  datatype Outgoing =
    | TerminalResponseSent(response: seq<byte>)
    | EnvelopeSent(envelope: seq<byte>)
    | CallSetupConfirmed(confirmed: bool)
    | CommandBroadcast(cmd: CatCmdMessage)
    | SessionEndBroadcast

  class CatService {
    var currentCmd: Option<CatCmdMessage>
    var menuCmd: Option<CatCmdMessage>
    /** Everything sent to the RIL and broadcast, in order. */
    var sent: seq<Outgoing>
    /** getPliResponse: the bytes written for a PROVIDE LOCAL INFORMATION qualifier. */
    const pli: byte -> seq<byte>
    /** ResponseData.format. */
    const format: ResponseData -> seq<byte>

    ghost predicate Valid()
      reads this
    {
      && (currentCmd.Some? ==> CarriesInput(currentCmd.value))
      && (menuCmd.Some? ==> CarriesInput(menuCmd.value))
    }

    constructor(pli: byte -> seq<byte>, format: ResponseData -> seq<byte>)
      ensures Valid()
      ensures currentCmd == None && menuCmd == None && sent == []
      ensures this.pli == pli && this.format == format
    {
      currentCmd := None;
      menuCmd := None;
      sent := [];
      this.pli := pli;
      this.format := format;
    }

    function CurrentInput(): Option<Input>
      reads this`currentCmd
    {
      if currentCmd.Some? then currentCmd.value.input else None
    }

    /** The bytes of a terminal response sent now: resp's format, or the optional tags. */
    function ResponseBytes(d: CommandDetails, code: ResultCode, includeAdditionalInfo: bool,
                           additionalInfo: int, resp: Option<ResponseData>): seq<byte>
      reads this`currentCmd
    {
      TerminalResponse(d, code, includeAdditionalInfo, additionalInfo,
                       if resp.Some? then format(resp.value) else OptionalTags(d, code, CurrentInput(), pli))
    }

    /** sendTerminalResponse: nothing without command details. */
    method SendTerminalResponse(cmdDet: Option<CommandDetails>, code: ResultCode, includeAdditionalInfo: bool,
                                additionalInfo: int, resp: Option<ResponseData>)
      modifies this`sent
      ensures cmdDet.None? ==> sent == old(sent)
      ensures cmdDet.Some? ==>
        sent == old(sent) + [TerminalResponseSent(old(ResponseBytes(cmdDet.value, code, includeAdditionalInfo, additionalInfo, resp)))]
    {
      if cmdDet.None? {
        return;
      }
      var d := cmdDet.value;
      var buf: seq<byte> := [];
      // command details
      var tag := TagValue(COMMAND_DETAILS);
      if d.compRequired {
        tag := CR + tag;
      }
      buf := buf + [tag, 0x03, d.commandNumber, d.typeOfCommand, d.commandQualifier];
      // device identities
      buf := buf + [TagValue(DEVICE_IDENTITIES), 0x02, DEV_ID_TERMINAL, DEV_ID_UICC];
      // result
      buf := buf + [CR + TagValue(RESULT), if includeAdditionalInfo then 2 else 1, ResultValue(code)];
      if includeAdditionalInfo {
        buf := buf + [LowByte(additionalInfo)];
      }
      assert buf == CommandDetailsTlv(d) + TERMINAL_TO_UICC + ResultTlv(code, includeAdditionalInfo, additionalInfo);
      if resp.Some? {
        buf := buf + format(resp.value);
      } else {
        buf := buf + OptionalTags(d, code, CurrentInput(), pli);
      }
      assert buf == ResponseBytes(d, code, includeAdditionalInfo, additionalInfo, resp);
      sent := sent + [TerminalResponseSent(buf)];
    }

    /** sendMenuSelection: writes a placeholder length and patches it once the envelope is complete. */
    method SendMenuSelection(menuId: int, helpRequired: bool)
      modifies this`sent
      ensures sent == old(sent) + [EnvelopeSent(MenuSelectionEnvelope(menuId, helpRequired))]
    {
      var buf: seq<byte> := [BER_MENU_SELECTION_TAG, 0x00];
      buf := buf + [CR + TagValue(DEVICE_IDENTITIES), 0x02, DEV_ID_KEYPAD, DEV_ID_UICC];
      buf := buf + [CR + TagValue(ITEM_ID), 0x01, LowByte(menuId)];
      if helpRequired {
        buf := buf + [TagValue(HELP_REQUEST), 0x00];
      }
      ghost var body := buf[2..];
      assert buf == [BER_MENU_SELECTION_TAG, 0x00] + body;
      assert body == [CR + TagValue(DEVICE_IDENTITIES), 0x02, DEV_ID_KEYPAD, DEV_ID_UICC,
                      CR + TagValue(ITEM_ID), 0x01, LowByte(menuId)]
                     + (if helpRequired then [TagValue(HELP_REQUEST), 0x00] else []);
      var rawData := buf[1 := LowByte(|buf| - 2)];
      assert rawData == [BER_MENU_SELECTION_TAG, |body|] + body;
      sent := sent + [EnvelopeSent(rawData)];
    }

    /** eventDownload: the same placeholder-and-patch, with the additional information copied byte by byte. */
    method EventDownload(event: int, sourceId: int, destinationId: int, additionalInfo: Option<seq<byte>>)
      modifies this`sent
      ensures sent == old(sent) + [EnvelopeSent(EventDownloadEnvelope(event, sourceId, destinationId, additionalInfo))]
    {
      var head: seq<byte> := [CR + TagValue(EVENT_LIST), 0x01, LowByte(event),
                              CR + TagValue(DEVICE_IDENTITIES), 0x02, LowByte(sourceId), LowByte(destinationId)];
      if event == BROWSER_TERMINATION_EVENT {
        head := head + [CR + TagValue(BROWSER_TERMINATION_CAUSE), 0x01];
      } else if event == LANGUAGE_SELECTION_EVENT {
        head := head + [CR + TagValue(LANGUAGE), 0x02];
      }
      var buf: seq<byte> := [BER_EVENT_DOWNLOAD_TAG, 0x00] + head;
      var info := Bytes(additionalInfo);
      buf := AppendBytes(buf, info);
      var rawData := buf[1 := LowByte(|buf| - 2)];
      assert buf == [BER_EVENT_DOWNLOAD_TAG, 0x00] + (head + info);
      LengthPatched(BER_EVENT_DOWNLOAD_TAG, LowByte(|buf| - 2), head + info);
      assert head == [CR + TagValue(EVENT_LIST), 0x01, LowByte(event),
                      CR + TagValue(DEVICE_IDENTITIES), 0x02, LowByte(sourceId), LowByte(destinationId)]
                     + EventObjects(event);
      sent := sent + [EnvelopeSent(rawData)];
    }

    /** The terminal response handleProactiveCommand's switch sends, if any. */
    method RespondAtOnce(p: CommandParams)
      modifies this`sent
      ensures var response := ProactiveResult(p);
        sent == old(sent)
                + if response.Some? then [TerminalResponseSent(old(ResponseBytes(p.cmdDet, response.value, false, 0, None)))] else []
    {
      var response := ImmediateResult(p);
      if response.Some? {
        SendTerminalResponse(Some(p.cmdDet), response.value, false, 0, None);
      }
    }

    /** handleProactiveCommand. */
    method HandleProactiveCommand(p: CommandParams)
      requires Valid() && WellFormed(p)
      modifies this`sent, this`currentCmd, this`menuCmd
      ensures Valid()
      ensures var response := ProactiveResult(p);
        sent == old(sent)
                + (if response.Some? then [TerminalResponseSent(old(ResponseBytes(p.cmdDet, response.value, false, 0, None)))] else [])
                + (if p.commandType == PROVIDE_LOCAL_INFORMATION then [] else [CommandBroadcast(Kept(p))])
      ensures currentCmd == (if p.commandType == PROVIDE_LOCAL_INFORMATION then old(currentCmd) else Some(Kept(p)))
      ensures menuCmd == (if p.commandType != SET_UP_MENU then old(menuCmd)
                          else if RemoveMenu(p.menu) then None else Some(Message(p)))
    {
      var cmdMsg := Message(p);
      if p.commandType == SET_UP_MENU {
        UpdateMenu(cmdMsg);
      }
      RespondAtOnce(p);
      if p.commandType == PROVIDE_LOCAL_INFORMATION {
        return;
      }
      if p.commandType == REFRESH {
        // only refreshes that remove the idle mode text are handled here
        cmdMsg := cmdMsg.(cmdDet := p.cmdDet.(typeOfCommand := CommandTypeValue(SET_UP_IDLE_MODE_TEXT)));
      }
      assert cmdMsg == Kept(p);
      KeptCarriesInput(p);
      currentCmd := Some(cmdMsg);
      sent := sent + [CommandBroadcast(cmdMsg)];
    }

    /** SET UP MENU: a menu to remove clears the menu command, any other is kept. */
    method UpdateMenu(cmdMsg: CatCmdMessage)
      modifies this`menuCmd
      ensures menuCmd == if RemoveMenu(cmdMsg.menu) then None else Some(cmdMsg)
    {
      if RemoveMenu(cmdMsg.menu) {
        menuCmd := None;
      } else {
        menuCmd := Some(cmdMsg);
      }
    }

    /** handleSessionEnd: the menu becomes the current command again. */
    method HandleSessionEnd()
      requires Valid()
      modifies this`currentCmd, this`sent
      ensures currentCmd == old(menuCmd) && menuCmd == old(menuCmd)
      ensures sent == old(sent) + [SessionEndBroadcast]
      ensures Valid()
    {
      currentCmd := menuCmd;
      sent := sent + [SessionEndBroadcast];
    }

    /** handleCmdResponse: acts on ResponseEffect; a terminal response or call set-up ends the command. */
    method HandleCmdResponse(m: CatResponseMessage)
      requires Valid()
      modifies this`currentCmd, this`sent
      ensures Valid()
      ensures match ResponseEffect(m, old(currentCmd))
        case Ignore => sent == old(sent) && currentCmd == old(currentCmd)
        case SendMenuSelection(id, help) =>
          sent == old(sent) + [EnvelopeSent(MenuSelectionEnvelope(id, help))] && currentCmd == old(currentCmd)
        case ConfirmCallSetup(c) => sent == old(sent) + [CallSetupConfirmed(c)] && currentCmd == None
        case SendEventDownload(ev, s, d, info) =>
          sent == old(sent) + [EnvelopeSent(EventDownloadEnvelope(ev, s, d, info))] && currentCmd == old(currentCmd)
        case Respond(d, code, incl, addl, resp) =>
          sent == old(sent) + [TerminalResponseSent(old(ResponseBytes(d, code, incl, addl, resp)))] && currentCmd == None
    {
      var e := ResponseEffect(m, currentCmd);
      match e {
        case Ignore =>
        case SendMenuSelection(id, help) =>
          SendMenuSelection(id, help);
        case ConfirmCallSetup(c) =>
          sent := sent + [CallSetupConfirmed(c)];
          currentCmd := None;
        case SendEventDownload(ev, s, d, info) =>
          EventDownload(ev, s, d, info);
        case Respond(d, code, incl, addl, resp) =>
          SendTerminalResponse(Some(d), code, incl, addl, resp);
          currentCmd := None;
      }
    }
  }

  /** The command details of a terminal response to a command that could not be decoded at all. */
  const LAST_COMMAND: CommandDetails := CommandDetails(true, 0x00, 0x00, 0x00)

  datatype RilMessageId = SESSION_END | PROACTIVE_COMMAND | EVENT_NOTIFY | CALL_SETUP | REFRESH_MSG

  datatype RilMessage = RilMessage(id: RilMessageId, resCode: ResultCode, params: Option<CommandParams>)

  /** handleRilMsg: dispatches a decoded RIL message. */
  method HandleRilMsg(service: CatService, msg: RilMessage)
    requires service.Valid()
    requires msg.params.Some? ==> WellFormed(msg.params.value)
    modifies service`sent, service`currentCmd, service`menuCmd
    ensures msg.id == PROACTIVE_COMMAND && msg.params.None? ==>
      service.sent == old(service.sent) + [TerminalResponseSent(old(service.ResponseBytes(LAST_COMMAND, msg.resCode, false, 0, None)))]
    ensures msg.id == PROACTIVE_COMMAND && msg.params.Some? && msg.resCode != OK ==>
      service.sent == old(service.sent) + [TerminalResponseSent(old(service.ResponseBytes(msg.params.value.cmdDet, msg.resCode, false, 0, None)))]
    ensures msg.id == EVENT_NOTIFY && msg.resCode != OK ==> service.sent == old(service.sent)
    ensures msg.id == CALL_SETUP ==> service.sent == old(service.sent)
    ensures msg.id != SESSION_END ==> service.menuCmd == old(service.menuCmd) || msg.params.Some?
    ensures msg.id == SESSION_END ==> service.currentCmd == old(service.menuCmd)
  {
    match msg.id {
      case EVENT_NOTIFY =>
        if msg.resCode == OK && msg.params.Some? {
          service.HandleProactiveCommand(msg.params.value);
        }
      case PROACTIVE_COMMAND =>
        if msg.params.Some? {
          if msg.resCode == OK {
            service.HandleProactiveCommand(msg.params.value);
          } else {
            service.SendTerminalResponse(Some(msg.params.value.cmdDet), msg.resCode, false, 0, None);
          }
        } else {
          // a command number of 0 refers to the last proactive command sent (ETSI TS 102 223 section 6.8.1)
          service.SendTerminalResponse(Some(LAST_COMMAND), msg.resCode, false, 0, None);
        }
      case REFRESH_MSG =>
        if msg.params.Some? {
          service.HandleProactiveCommand(msg.params.value);
        }
      case SESSION_END =>
        service.HandleSessionEnd();
      case CALL_SETUP =>
    }
  }
}
