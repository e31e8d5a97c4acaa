/**
 * Bluetooth UUIDs as CBUUID presents them: a 128-bit value plus an optional
 * remembered short form (16-bit or 32-bit), expanded onto and compressed from
 * the Bluetooth Base UUID 00000000-0000-1000-8000-00805F9B34FB (Bluetooth Core
 * Specification v5.x, Vol 3, Part B, Section 2.5.1).
 *
 * A 128-bit value is represented by its canonical text: 36 characters, hyphens
 * at offsets 8, 13, 18 and 23, upper-case hexadecimal digits elsewhere.
 * Upper-casing is ASCII only and the trimmed "whitespace" is space and tab.
 */
module Uuids {
  import opened Wrappers

  /** Everything after the 8 variable digits of the Bluetooth Base UUID. */
  const BASE_SUFFIX: string := "-0000-1000-8000-00805F9B34FB"

  const HEX_CHARACTERS: string := "0123456789ABCDEFabcdef"

  /** The 16-bit short form of the Client Characteristic Configuration descriptor. */
  const CLIENT_CHARACTERISTIC_CONFIGURATION: string := "2902"

  /** Membership in `HEX_CHARACTERS`, written as ranges (see `HexDigitsAreHexCharacters`). */
  predicate IsHexDigit(c: char) { '0' <= c <= '9' || 'A' <= c <= 'F' || 'a' <= c <= 'f' }

  lemma HexDigitsAreHexCharacters(c: char)
    ensures IsHexDigit(c) <==> c in HEX_CHARACTERS
  {
    if IsHexDigit(c) {
      if '0' <= c <= '9' {
        assert HEX_CHARACTERS[c as int - '0' as int] == c;
      } else if 'A' <= c <= 'F' {
        assert HEX_CHARACTERS[10 + c as int - 'A' as int] == c;
      } else {
        assert HEX_CHARACTERS[16 + c as int - 'a' as int] == c;
      }
    }
  }

  predicate IsLower(c: char) { 'a' <= c <= 'z' }

  predicate IsWhitespace(c: char) { c == ' ' || c == '\t' }

  predicate AllHex(s: string) { forall i | 0 <= i < |s| :: IsHexDigit(s[i]) }

  predicate NoLowercase(s: string) { forall i | 0 <= i < |s| :: !IsLower(s[i]) }

  predicate HasPrefix(s: string, p: string) { |p| <= |s| && s[..|p|] == p }

  predicate HasSuffix(s: string, p: string) { |p| <= |s| && s[|s| - |p|..] == p }

  /** What may stand at offset `i` of a UUID text: a hyphen between groups, else a hex digit. */
  predicate IsUuidChar(i: int, c: char) {
    if i == 8 || i == 13 || i == 18 || i == 23 then c == '-' else IsHexDigit(c)
  }

  /** Text that parses as a 128-bit UUID: groups of 8-4-4-4-12 hex digits. */
  predicate IsUuidText(s: string) {
    |s| == 36 && forall i | 0 <= i < 36 :: IsUuidChar(i, s[i])
  }

  /** A 128-bit UUID value, as the canonical upper-case text `uuid.uuidString` gives. */
  type Uuid = s: string | IsUuidText(s) && NoLowercase(s)
    witness "00000000-0000-1000-8000-00805F9B34FB"

  // ---------------------------------------------------------------------------
  // Text helpers: upper-casing and trimming
  // ---------------------------------------------------------------------------

  function UpperChar(c: char): (u: char)
    ensures !IsLower(u)
    ensures !IsLower(c) ==> u == c
    ensures IsHexDigit(c) <==> IsHexDigit(u)
    ensures IsWhitespace(c) <==> IsWhitespace(u)
  {
    if IsLower(c) then (c as int - 32) as char else c
  }

  /** `uppercased()`, on ASCII letters. */
  function Upper(s: string): (r: string)
    ensures |r| == |s|
    ensures forall i | 0 <= i < |s| :: r[i] == UpperChar(s[i])
    ensures NoLowercase(r)
  {
    seq(|s|, i requires 0 <= i < |s| => UpperChar(s[i]))
  }

  lemma UpperOfNoLowercase(s: string)
    requires NoLowercase(s)
    ensures Upper(s) == s
  {
  }

  /** `trimmingCharacters(in: .whitespaces)`: leading and trailing blanks removed. */
  function Trim(s: string): (r: string)
  {
    TrimEnd(TrimStart(s))
  }

  function TrimStart(s: string): (r: string)
    ensures |r| <= |s| && r == s[|s| - |r|..]
  {
    if s != [] && IsWhitespace(s[0]) then TrimStart(s[1..]) else s
  }

  function TrimEnd(s: string): (r: string)
    ensures |r| <= |s| && r == s[..|r|]
  {
    if s != [] && IsWhitespace(s[|s| - 1]) then TrimEnd(s[..|s| - 1]) else s
  }

  lemma {:induction false} TrimStartUpper(s: string)
    ensures TrimStart(Upper(s)) == Upper(TrimStart(s))
    decreases |s|
  {
    if s != [] {
      assert Upper(s)[1..] == Upper(s[1..]);
      TrimStartUpper(s[1..]);
    }
  }

  lemma {:induction false} TrimEndUpper(s: string)
    ensures TrimEnd(Upper(s)) == Upper(TrimEnd(s))
    decreases |s|
  {
    if s != [] {
      assert Upper(s)[..|s| - 1] == Upper(s[..|s| - 1]);
      TrimEndUpper(s[..|s| - 1]);
    }
  }

  /** Trimming and upper-casing commute, since blanks are not letters. */
  lemma TrimUpper(s: string)
    ensures Trim(Upper(s)) == Upper(Trim(s))
  {
    TrimStartUpper(s);
    TrimEndUpper(TrimStart(s));
  }

  /** Hex digits are not blanks, so a hex string is its own trimming. */
  lemma TrimOfHex(s: string)
    requires AllHex(s)
    ensures Trim(s) == s
  {
    if s != [] {
      assert IsHexDigit(s[0]);
      assert IsHexDigit(s[|s| - 1]);
    }
  }

  /** The base suffix has its hyphens and digits where a UUID text needs them. */
  lemma BaseSuffixChars()
    ensures forall k | 0 <= k < 28 :: IsUuidChar(k + 8, BASE_SUFFIX[k]) && !IsLower(BASE_SUFFIX[k])
  {
  }

  lemma AppendBaseSuffix(p: string)
    requires |p| == 8 && AllHex(p) && NoLowercase(p)
    ensures IsUuidText(p + BASE_SUFFIX) && NoLowercase(p + BASE_SUFFIX)
  {
    BaseSuffixChars();
    var r := p + BASE_SUFFIX;
    forall i | 0 <= i < 36 ensures IsUuidChar(i, r[i]) && !IsLower(r[i]) {
      if i >= 8 {
        assert r[i] == BASE_SUFFIX[i - 8];
      }
    }
  }

  lemma UpperKeepsUuidText(s: string)
    requires IsUuidText(s)
    ensures IsUuidText(Upper(s))
  {
  }

  /** The 128-bit value with variable digits `p` on the Bluetooth Base UUID. */
  function BaseUuid(p: string): (u: Uuid)
    requires |p| == 8 && AllHex(p) && NoLowercase(p)
    ensures u[..8] == p && u[8..] == BASE_SUFFIX
  {
    AppendBaseSuffix(p);
    p + BASE_SUFFIX
  }

  /** `UUID(uuidString:)`: the canonical value of a well-formed UUID text. */
  function ParseUuid(s: string): (r: Option<Uuid>)
    ensures r.Some? <==> IsUuidText(s)
    ensures r.Some? ==> r.value == Upper(s)
  {
    if IsUuidText(s) then UpperKeepsUuidText(s); Some(Upper(s)) else None
  }

  // ---------------------------------------------------------------------------
  // Expansion and compression
  // ---------------------------------------------------------------------------

  /**
   * `expandShortUUID`: a trimmed, upper-cased 4- or 8-digit hex string,
   * zero-padded to 8 digits, in front of the base suffix.
   */
  function ExpandShortUUID(shortUUID: string): (r: Option<string>)
    ensures var t := Upper(Trim(shortUUID));
      && (r.Some? <==> (|t| == 4 || |t| == 8) && AllHex(t))
      && (r.Some? ==>
            && IsUuidText(r.value) && NoLowercase(r.value)
            && r.value[8..] == BASE_SUFFIX
            && r.value[8 - |t|..8] == t
            && forall i | 0 <= i < 8 - |t| :: r.value[i] == '0')
  {
    var trimmed := Upper(Trim(shortUUID));
    if !(|trimmed| == 4 || |trimmed| == 8) then None
    else if !AllHex(trimmed) then None
    else
      var padded := if |trimmed| == 4 then "0000" + trimmed else trimmed;
      PadHex(trimmed);
      AppendBaseSuffix(padded);
      var r := padded + BASE_SUFFIX;
      assert r[..8] == padded && r[8..] == BASE_SUFFIX;
      assert r[8 - |trimmed|..8] == padded[8 - |trimmed|..];
      Some(r)
  }

  /** Zero-padding 4 or 8 upper-case hex digits to 8 keeps them upper-case hex. */
  lemma PadHex(t: string)
    requires (|t| == 4 || |t| == 8) && AllHex(t) && NoLowercase(t)
    ensures var p := if |t| == 4 then "0000" + t else t;
      && |p| == 8 && AllHex(p) && NoLowercase(p)
      && p[8 - |t|..] == t
      && forall i | 0 <= i < 8 - |t| :: p[i] == '0'
  {
    if |t| == 4 {
      var p := "0000" + t;
      forall i | 0 <= i < 8 ensures !IsLower(p[i]) && IsHexDigit(p[i]) {
        if i >= 4 {
          assert p[i] == t[i - 4];
        }
      }
      assert p[4..] == t;
    }
  }

  /**
   * `extractShortUUID`: for a 36-character text ending in the base suffix,
   * the last 4 of its 8 variable digits when the first 4 are zeros, and
   * otherwise all 8 of them.
   */
  function ExtractShortUUID(fullUUID: string): (r: Option<string>)
    ensures r.Some? <==> |fullUUID| == 36 && HasSuffix(Upper(fullUUID), BASE_SUFFIX)
    ensures r.Some? ==> |r.value| == 4 || |r.value| == 8
    ensures r.Some? ==> (|r.value| == 4 <==> HasPrefix(Upper(fullUUID), "0000"))
    ensures r.Some? ==> r.value == Upper(fullUUID)[8 - |r.value|..8]
  {
    var upper := Upper(fullUUID);
    if |upper| != 36 then None
    else if !HasSuffix(upper, BASE_SUFFIX) then None
    else
      var prefix := upper[..8];
      if HasPrefix(prefix, "0000") then Some(prefix[4..]) else Some(prefix)
  }

  /** A well-formed short form expands to its zero-padded upper-cased digits and the base suffix. */
  lemma ExpandOfHex(s: string)
    requires (|s| == 4 || |s| == 8) && AllHex(s)
    ensures ExpandShortUUID(s).Some?
    ensures ExpandShortUUID(s).value == (if |s| == 4 then "0000" + Upper(s) else Upper(s)) + BASE_SUFFIX
  {
    TrimOfHex(s);
    PaddedDigits(Upper(s), ExpandShortUUID(s).value);
  }

  /** Text made of the base suffix behind `t` zero-padded to 8 digits is that concatenation. */
  lemma PaddedDigits(t: string, r: string)
    requires (|t| == 4 || |t| == 8) && |r| == 36
    requires r[8..] == BASE_SUFFIX && r[8 - |t|..8] == t
    requires forall i | 0 <= i < 8 - |t| :: r[i] == '0'
    ensures r == (if |t| == 4 then "0000" + t else t) + BASE_SUFFIX
  {
    var p := if |t| == 4 then "0000" + t else t;
    assert r[..8] == p by {
      forall i | 0 <= i < 8 ensures r[i] == p[i] {
        if i >= 8 - |t| {
          assert r[i] == r[8 - |t|..8][i - (8 - |t|)];
        }
      }
    }
    assert r == r[..8] + r[8..];
  }

  /** Compressing the base-pattern UUID with variable digits `p`. */
  lemma ExtractOfBase(p: string)
    requires |p| == 8 && NoLowercase(p)
    ensures ExtractShortUUID(p + BASE_SUFFIX) == Some(if p[..4] == "0000" then p[4..] else p)
  {
    BaseSuffixChars();
    var full := p + BASE_SUFFIX;
    assert NoLowercase(full) by {
      forall i | 0 <= i < 36 ensures !IsLower(full[i]) {
        if i >= 8 {
          assert full[i] == BASE_SUFFIX[i - 8];
        }
      }
    }
    UpperOfNoLowercase(full);
    assert full[..8] == p;
    assert full[..8][..4] == p[..4];
  }

  /** Compression undoes expansion for a 16-bit short form. */
  lemma ExpandThenExtract16(s: string)
    requires |s| == 4 && AllHex(s)
    ensures ExpandShortUUID(s).Some?
    ensures ExtractShortUUID(ExpandShortUUID(s).value) == Some(Upper(s))
  {
    ExpandOfHex(s);
    var p := "0000" + Upper(s);
    ExtractOfBase(p);
    assert p[..4] == "0000";
    assert p[4..] == Upper(s);
  }

  /**
   * Compression undoes expansion for a 32-bit short form, except that one
   * whose first four digits are zeros comes back as its 16-bit form.
   */
  lemma ExpandThenExtract32(s: string)
    requires |s| == 8 && AllHex(s)
    ensures ExpandShortUUID(s).Some?
    ensures ExtractShortUUID(ExpandShortUUID(s).value)
         == Some(if HasPrefix(Upper(s), "0000") then Upper(s)[4..] else Upper(s))
  {
    ExpandOfHex(s);
    ExtractOfBase(Upper(s));
  }

  /** A compressed form taken from UUID text consists of upper-case hex digits. */
  lemma ShortFormChars(full: string)
    requires IsUuidText(full) && ExtractShortUUID(full).Some?
    ensures AllHex(ExtractShortUUID(full).value) && NoLowercase(ExtractShortUUID(full).value)
  {
    var u := Upper(full);
    var short := ExtractShortUUID(full).value;
    var k := 8 - |short|;
    assert short == u[k..8];
    forall i | 0 <= i < |short| ensures IsHexDigit(short[i]) && !IsLower(short[i]) {
      assert short[i] == u[k + i];
      assert IsUuidChar(k + i, full[k + i]);
      assert u[k + i] == UpperChar(full[k + i]);
    }
  }

  /** Expansion undoes compression of a well-formed base-pattern UUID. */
  lemma ExtractThenExpand(full: string)
    requires IsUuidText(full) && ExtractShortUUID(full).Some?
    ensures ExpandShortUUID(ExtractShortUUID(full).value) == Some(Upper(full))
  {
    var short := ExtractShortUUID(full).value;
    ShortFormChars(full);
    ExpandOfHex(short);
    UpperOfNoLowercase(short);
    BaseDigits(Upper(full), short);
  }

  /** Base-pattern text is its variable digits, zero-padded, in front of the base suffix. */
  lemma BaseDigits(u: string, short: string)
    requires |u| == 36 && HasSuffix(u, BASE_SUFFIX)
    requires (|short| == 4 || |short| == 8) && short == u[8 - |short|..8]
    requires |short| == 4 ==> HasPrefix(u, "0000")
    ensures u == (if |short| == 4 then "0000" + short else short) + BASE_SUFFIX
  {
    assert u == u[..8] + u[8..];
    if |short| == 4 {
      assert u[..8] == u[..4] + u[4..8];
    }
  }

  lemma ExpandIgnoresCase(s: string)
    ensures ExpandShortUUID(Upper(s)) == ExpandShortUUID(s)
  {
    TrimUpper(s);
    UpperOfNoLowercase(Upper(Trim(s)));
  }

  // ---------------------------------------------------------------------------
  // CBUUID
  // ---------------------------------------------------------------------------

  /** A CBUUID: the stored 128-bit value and the remembered short form, if any. */
  datatype CBUuid = CBUuid(uuid: Uuid, shortFormUUID: Option<string>)

  /** `uuidString`: the upper-cased short form when one is remembered, else the 128-bit text. */
  function UuidString(u: CBUuid): (r: string)
    ensures NoLowercase(r)
    ensures u.shortFormUUID.None? ==> r == u.uuid
    ensures u.shortFormUUID.Some? ==> r == Upper(u.shortFormUUID.value) && |r| == |u.shortFormUUID.value|
  {
    match u.shortFormUUID
    case Some(short) => Upper(short)
    case None => UpperOfNoLowercase(u.uuid); Upper(u.uuid)
  }

  /** `==`: two CBUUIDs are equal when they report the same `uuidString`. */
  predicate Equal(a: CBUuid, b: CBUuid) {
    UuidString(a) == UuidString(b)
  }

  /**
   * `init(string:)`: a full UUID text is taken as it is and compressed when it
   * follows the base pattern; otherwise a valid short form is expanded and
   * remembered (upper-cased, untrimmed); anything else yields `fallback`, the
   * random UUID the source generates, with no short form.
   */
  function FromString(theString: string, fallback: Uuid): (r: CBUuid)
    ensures r.shortFormUUID.Some? ==> ExpandShortUUID(r.shortFormUUID.value) == Some(r.uuid)
    ensures IsUuidText(theString) ==> r == CBUuid(Upper(theString), ExtractShortUUID(theString))
    ensures !IsUuidText(theString) && ExpandShortUUID(theString).Some?
        ==> r == CBUuid(ExpandShortUUID(theString).value, Some(Upper(theString)))
    ensures !IsUuidText(theString) && ExpandShortUUID(theString).None? ==> r == CBUuid(fallback, None)
  {
    match ParseUuid(theString)
    case Some(uuid) =>
      var short := ExtractShortUUID(theString);
      if short.Some? then ExtractThenExpand(theString); CBUuid(uuid, short) else CBUuid(uuid, short)
    case None =>
      match ExpandShortUUID(theString)
      case Some(expanded) =>
        (match ParseUuid(expanded)
         case Some(uuid) =>
           ExpandIgnoresCase(theString);
           UpperOfNoLowercase(expanded);
           CBUuid(uuid, Some(Upper(theString)))
         case None => CBUuid(fallback, None))
      case None => CBUuid(fallback, None)
  }

  /** `init(nsuuid:)`: the value itself, compressed when it follows the base pattern. */
  function FromNSUuid(nsuuid: Uuid): (r: CBUuid)
    ensures r.uuid == nsuuid
    ensures r.shortFormUUID == ExtractShortUUID(nsuuid)
    ensures r.shortFormUUID.Some? ==> ExpandShortUUID(r.shortFormUUID.value) == Some(r.uuid)
    ensures HasSuffix(nsuuid, BASE_SUFFIX) ==> r.shortFormUUID.Some?
  {
    var short := ExtractShortUUID(nsuuid);
    UpperOfNoLowercase(nsuuid);
    if short.Some? then ExtractThenExpand(nsuuid); CBUuid(nsuuid, short) else CBUuid(nsuuid, short)
  }

  // ---------------------------------------------------------------------------
  // Properties of CBUUID
  // ---------------------------------------------------------------------------

  /**
   * The two initializers agree: a UUID value wrapped by `init(nsuuid:)` is the
   * same CBUUID as its text passed to `init(string:)`, whatever the fallback.
   */
  lemma NSUuidAgreesWithString(u: Uuid, fallback: Uuid)
    ensures FromNSUuid(u) == FromString(u, fallback)
    ensures Equal(FromNSUuid(u), FromString(u, fallback))
  {
    UpperOfNoLowercase(u);
  }

  /** A valid short form is kept, upper-cased, and stands for its base-UUID expansion. */
  lemma ShortFormReported(s: string, fallback: Uuid)
    requires (|s| == 4 || |s| == 8) && AllHex(s)
    ensures ExpandShortUUID(s).Some?
    ensures FromString(s, fallback).uuid == ExpandShortUUID(s).value
    ensures UuidString(FromString(s, fallback)) == Upper(s)
  {
    TrimOfHex(s);
    UpperOfNoLowercase(Upper(s));
    var e := ExpandShortUUID(s).value;
    UpperOfNoLowercase(e);
  }

  /** A full UUID text reports its compressed form when it has one, else its upper-cased self. */
  lemma LongFormReported(s: string, fallback: Uuid)
    requires IsUuidText(s)
    ensures FromString(s, fallback).uuid == Upper(s)
    ensures UuidString(FromString(s, fallback))
         == if ExtractShortUUID(s).Some? then ExtractShortUUID(s).value else Upper(s)
  {
    var short := ExtractShortUUID(s);
    if short.Some? {
      var u := Upper(s);
      ShortFormChars(s);
      UpperOfNoLowercase(short.value);
    }
  }

  /** A base-pattern full UUID equals the CBUUID built from its short form. */
  lemma LongEqualsShort(full: string, f: Uuid, g: Uuid)
    requires IsUuidText(full) && ExtractShortUUID(full).Some?
    ensures var short := ExtractShortUUID(full).value;
      && Equal(FromString(full, f), FromString(short, g))
      && FromString(full, f).uuid == FromString(short, g).uuid
  {
    var short := ExtractShortUUID(full).value;
    ShortFormChars(full);
    LongFormReported(full, f);
    ShortFormReported(short, g);
    ExtractThenExpand(full);
    UpperOfNoLowercase(short);
  }

  /** `==` is an equivalence relation, being equality of `uuidString`. */
  lemma EqualIsEquivalence(a: CBUuid, b: CBUuid, c: CBUuid)
    ensures Equal(a, a)
    ensures Equal(a, b) ==> Equal(b, a)
    ensures Equal(a, b) && Equal(b, c) ==> Equal(a, c)
  {
  }

  /** The 16-bit short form "180A" (Device Information) reports itself. */
  lemma Example180A(f: Uuid)
    ensures UuidString(FromString("180A", f)) == "180A"
  {
    UpperOfNoLowercase("180A");
    ShortFormReported("180A", f);
  }

  /** Its 32-bit spelling "0000180A" reports all eight digits. */
  lemma Example0000180A(f: Uuid)
    ensures UuidString(FromString("0000180A", f)) == "0000180A"
  {
    UpperOfNoLowercase("0000180A");
    ShortFormReported("0000180A", f);
  }

  /** The full base-pattern text of "180A" is reported as "180A". */
  lemma Example180AFull(g: Uuid)
    ensures UuidString(FromString("0000180A-0000-1000-8000-00805F9B34FB", g)) == "180A"
  {
    var p := "0000180A";
    var full := "0000180A-0000-1000-8000-00805F9B34FB";
    assert full == p + BASE_SUFFIX by {
      forall i | 0 <= i < 36 ensures full[i] == (p + BASE_SUFFIX)[i] {
      }
    }
    AppendBaseSuffix(p);
    ExtractOfBase(p);
    assert p[..4] == "0000" && p[4..] == "180A";
    LongFormReported(full, g);
  }

  /** "180A" equals its full text, but not its 32-bit spelling "0000180A". */
  lemma Examples180A(f: Uuid, g: Uuid)
    ensures Equal(FromString("180A", f), FromString("0000180A-0000-1000-8000-00805F9B34FB", g))
    ensures !Equal(FromString("0000180A", f), FromString("180A", g))
  {
    Example180A(f);
    Example180A(g);
    Example0000180A(f);
    Example180AFull(g);
  }

  /** The CCCD uuid Android is given is the expansion of the 16-bit form "2902". */
  lemma CccdIsBaseExpansion()
    ensures ExpandShortUUID(CLIENT_CHARACTERISTIC_CONFIGURATION)
         == Some(Upper("00002902-0000-1000-8000-00805f9b34fb"))
  {
    UpperOfNoLowercase(CLIENT_CHARACTERISTIC_CONFIGURATION);
    ExpandOfHex(CLIENT_CHARACTERISTIC_CONFIGURATION);
    assert "0000" + Upper(CLIENT_CHARACTERISTIC_CONFIGURATION) == "00002902";
    CccdTextUpper();
  }

  lemma CccdTextUpper()
    ensures Upper("00002902-0000-1000-8000-00805f9b34fb") == "00002902" + BASE_SUFFIX
  {
    CccdTextParts();
    UpperAppend("00002902-0000-1000-8000-", "00805f9b34fb");
    CccdHeadUpper();
    CccdTailUpper();
  }

  lemma CccdTextParts()
    ensures "00002902-0000-1000-8000-00805f9b34fb" == "00002902-0000-1000-8000-" + "00805f9b34fb"
    ensures "00002902" + BASE_SUFFIX == "00002902-0000-1000-8000-" + "00805F9B34FB"
  {
  }

  lemma CccdHeadUpper()
    ensures Upper("00002902-0000-1000-8000-") == "00002902-0000-1000-8000-"
  {
    var head := "00002902-0000-1000-8000-";
    assert NoLowercase(head) by {
      forall i | 0 <= i < |head| ensures !IsLower(head[i]) {
      }
    }
    UpperOfNoLowercase(head);
  }

  lemma CccdTailUpper()
    ensures Upper("00805f9b34fb") == "00805F9B34FB"
  {
    var tail := "00805f9b34fb";
    forall i | 0 <= i < |tail| ensures Upper(tail)[i] == "00805F9B34FB"[i] {
    }
  }

  lemma UpperAppend(a: string, b: string)
    ensures Upper(a + b) == Upper(a) + Upper(b)
  {
    var ab := a + b;
    forall i | 0 <= i < |ab| ensures Upper(ab)[i] == (Upper(a) + Upper(b))[i] {
      if i >= |a| {
        assert ab[i] == b[i - |a|];
      }
    }
  }

  // ---------------------------------------------------------------------------
  // Blank-padded short forms
  // ---------------------------------------------------------------------------

  /**
   * `init(string:)` expands the trimmed text but remembers the untrimmed one,
   * so a 16-bit short form with a leading blank (" 180A", say) stands for the
   * same 128-bit value as the short form itself yet compares unequal.
   */
  lemma PaddedShortFormCounterexample(t: string, f: Uuid, g: Uuid)
    requires |t| == 4 && AllHex(t)
    ensures FromString(" " + t, f).uuid == FromString(t, g).uuid
    ensures !Equal(FromString(" " + t, f), FromString(t, g))
  {
    PaddedInit(t, f);
    ShortFormReported(t, g);
    assert |UuidString(FromString(" " + t, f))| == 5;
  }

  /** A blank-led short form expands as the short form does and is remembered as written. */
  lemma PaddedInit(t: string, f: Uuid)
    requires |t| == 4 && AllHex(t)
    ensures ExpandShortUUID(t).Some?
    ensures FromString(" " + t, f) == CBUuid(ExpandShortUUID(t).value, Some(Upper(" " + t)))
  {
    LeadingBlankTrimmed(t);
    TrimOfHex(t);
    ExpandOfHex(t);
    SameTrimSameExpansion(" " + t, t);
  }

  /** Expansion sees only the trimmed text. */
  lemma SameTrimSameExpansion(s: string, t: string)
    requires Trim(s) == Trim(t)
    ensures ExpandShortUUID(s) == ExpandShortUUID(t)
  {
  }

  /** A leading blank is trimmed away from hex digits. */
  lemma LeadingBlankTrimmed(t: string)
    requires |t| > 0 && AllHex(t)
    ensures Trim(" " + t) == t
  {
    assert (" " + t)[1..] == t;
    assert IsHexDigit(t[0]) && IsHexDigit(t[|t| - 1]);
    assert TrimStart(t) == t;
    assert TrimStart(" " + t) == t;
  }

  /** `init(string:)` remembering the short form it actually expanded: trimmed and upper-cased. */
  function FromStringTrimmed(theString: string, fallback: Uuid): (r: CBUuid)
    ensures r.shortFormUUID.Some? ==> ExpandShortUUID(r.shortFormUUID.value) == Some(r.uuid)
    ensures r.uuid == FromString(theString, fallback).uuid
    ensures !IsUuidText(theString) && ExpandShortUUID(theString).Some?
        ==> r.shortFormUUID == Some(Upper(Trim(theString)))
  {
    var r := FromString(theString, fallback);
    if !IsUuidText(theString) && r.shortFormUUID.Some? then
      ExpandIgnoresCase(theString);
      NormalizedShortForm(theString);
      CBUuid(r.uuid, Some(Upper(Trim(theString))))
    else r
  }

  /** The normalized text of a valid short form is a fixed point of normalization and expansion. */
  lemma NormalizedShortForm(s: string)
    requires ExpandShortUUID(s).Some?
    ensures var t := Upper(Trim(s));
      && (|t| == 4 || |t| == 8) && AllHex(t) && NoLowercase(t)
      && Upper(Trim(t)) == t
      && ExpandShortUUID(t) == ExpandShortUUID(s)
  {
    var t := Upper(Trim(s));
    TrimOfHex(t);
    UpperOfNoLowercase(t);
  }

  /** With the corrected initializer, blanks around a short form do not change the CBUUID. */
  lemma TrimmedShortFormIgnoresBlanks(s: string, f: Uuid, g: Uuid)
    requires ExpandShortUUID(s).Some?
    ensures FromStringTrimmed(s, f) == FromStringTrimmed(Trim(s), g)
  {
    var t := Trim(s);
    NormalizedShortForm(s);
    if IsUuidText(s) {
      UuidTextIsTrimmed(s);
      assert false;
    }
    TrimmedShortForm(s);
    ExpandIgnoresCase(t);
    assert FromStringTrimmed(t, g).shortFormUUID == Some(Upper(Trim(t)));
  }

  /** The trimmed text of a valid short form is hex digits only, and trimming it again changes nothing. */
  lemma TrimmedShortForm(s: string)
    requires ExpandShortUUID(s).Some?
    ensures AllHex(Trim(s)) && Trim(Trim(s)) == Trim(s) && !IsUuidText(Trim(s))
  {
    var t := Trim(s);
    assert AllHex(Upper(t));
    assert AllHex(t) by {
      forall i | 0 <= i < |t| ensures IsHexDigit(t[i]) {
        assert IsHexDigit(Upper(t)[i]);
      }
    }
    TrimOfHex(t);
  }

  /** UUID text has no blanks at its ends. */
  lemma UuidTextIsTrimmed(s: string)
    requires IsUuidText(s)
    ensures Trim(s) == s
  {
    assert IsUuidChar(0, s[0]) && IsUuidChar(35, s[35]);
  }
}
