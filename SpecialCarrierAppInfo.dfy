/**
 * A special carrier app: a preinstalled package that stays disabled until a
 * SIM whose operator code is listed for it is present.
 */
module SpecialCarrierApps {
  import opened Wrappers

  const NO_SLOT: int := -1

  datatype SpecialCarrierAppInfo = SpecialCarrierAppInfo(
    packageName: string,
    /** The operator codes to match, separated by commas. */
    operatorCodesToMatch: string,
    actionIntentToBroadcast: Option<string>,
    /** The matched UICC slot, or -1 when not matched. */
    uiccSlotId: int,
    carrierName: Option<string>)

  /** The public constructor: an info that has not matched any SIM yet. */
  function NewInfo(packageName: string, operatorCodesToMatch: string, actionIntent: Option<string>)
    : (info: SpecialCarrierAppInfo)
    ensures !HasMatched(info) && info.carrierName == None
    ensures info.packageName == packageName && info.operatorCodesToMatch == operatorCodesToMatch
    ensures info.actionIntentToBroadcast == actionIntent
  {
    SpecialCarrierAppInfo(packageName, operatorCodesToMatch, actionIntent, NO_SLOT, None)
  }

  predicate HasMatched(info: SpecialCarrierAppInfo)
  {
    info.uiccSlotId != NO_SLOT
  }

  /** Index of the first comma in s, or |s| when there is none. */
  function CommaAt(s: string): (i: nat)
    ensures i <= |s|
    ensures i < |s| ==> s[i] == ','
    ensures forall j :: 0 <= j < i ==> s[j] != ','
  {
    if s == [] || s[0] == ',' then 0 else 1 + CommaAt(s[1..])
  }

  /** The comma-separated fields of s, every one kept (including empty ones). */
  function Fields(s: string): (f: seq<string>)
    ensures |f| >= 1
    decreases |s|
  {
    var i := CommaAt(s);
    if i == |s| then [s] else [s[..i]] + Fields(s[i + 1..])
  }

  /** Joins fields with commas; the inverse of Fields. */
  function Join(f: seq<string>): string
  {
    if f == [] then "" else if |f| == 1 then f[0] else f[0] + "," + Join(f[1..])
  }

  /** Drops the empty strings at the end of a list. */
  function StripTrailingEmpty(f: seq<string>): (r: seq<string>)
    ensures |r| <= |f| && r == f[..|r|]
    ensures r != [] ==> r[|r| - 1] != ""
    ensures forall j :: |r| <= j < |f| ==> f[j] == ""
  {
    if f == [] then []
    else if f[|f| - 1] == "" then StripTrailingEmpty(f[..|f| - 1])
    else f
  }

  /**
   * Java's String.split(",") with its default limit: when s has no comma the
   * result is s itself, even when s is empty; otherwise the fields with the
   * trailing empty ones removed. No field holds a comma, and with a comma
   * the last field kept is not empty.
   */
  function Split(s: string): (r: seq<string>)
    ensures ',' !in s ==> r == [s]
    ensures forall j :: 0 <= j < |r| ==> ',' !in r[j]
    ensures ',' in s && r != [] ==> r[|r| - 1] != ""
  {
    FieldsHaveNoComma(s);
    if ',' !in s then [s] else StripTrailingEmpty(Fields(s))
  }

  /** getAllOperatorCodesToMatch. */
  function AllOperatorCodesToMatch(info: SpecialCarrierAppInfo): (codes: seq<string>)
    ensures forall j :: 0 <= j < |codes| ==> ',' !in codes[j]
  {
    Split(info.operatorCodesToMatch)
  }

  /** The early-returning equality search of matchesAgainstOperator. */
  function Contains(codes: seq<string>, c: string): (found: bool)
    ensures found <==> exists j :: 0 <= j < |codes| && codes[j] == c
  {
    if codes == [] then false else codes[0] == c || Contains(codes[1..], c)
  }

  /** matchesAgainstOperator: a null operator code never matches. */
  function MatchesAgainstOperator(info: SpecialCarrierAppInfo, operatorCode: Option<string>): (m: bool)
    ensures m ==> operatorCode.Some? && ',' !in operatorCode.value
  {
    match operatorCode
    case None => false
    case Some(c) => Contains(AllOperatorCodesToMatch(info), c)
  }

  lemma {:induction false} FieldsHaveNoComma(s: string)
    ensures forall j :: 0 <= j < |Fields(s)| ==> ',' !in Fields(s)[j]
  {
    var i := CommaAt(s);
    if i < |s| {
      FieldsHaveNoComma(s[i + 1..]);
      assert forall j :: 1 <= j < |Fields(s)| ==> Fields(s)[j] == Fields(s[i + 1..])[j - 1];
    }
  }

  /** Fields and Join are inverse: splitting loses nothing. */
  lemma {:induction false} JoinFields(s: string)
    ensures Join(Fields(s)) == s
    decreases |s|
  {
    var i := CommaAt(s);
    if i < |s| {
      JoinFields(s[i + 1..]);
      assert Fields(s)[1..] == Fields(s[i + 1..]);
      assert s == s[..i] + "," + s[i + 1..];
    }
  }

  /**
   * What matching means for the configured string: a non-empty operator code
   * matches exactly when it is one of the comma-separated fields; the fields
   * the split drops are empty, so dropping them loses no real code.
   */
  lemma MatchesIffField(info: SpecialCarrierAppInfo, c: string)
    requires c != ""
    ensures MatchesAgainstOperator(info, Some(c)) <==> c in Fields(info.operatorCodesToMatch)
  {
    var s := info.operatorCodesToMatch;
    if ',' !in s {
      assert CommaAt(s) == |s|;
    } else {
      var f := Fields(s);
      var r := StripTrailingEmpty(f);
      if c in f {
        var j :| 0 <= j < |f| && f[j] == c;
        assert j < |r|;
        assert r[j] == c;
      }
    }
  }
}
