/** System.Guid as far as the core uses it: the value itself, its default string form
    (Guid.ToString(), used in routing keys and in the user id handed out at login) and
    Guid.TryParse, used to read the caller's id back out of a token claim. */
module Guids {
  import opened Wrappers

  type Nibble = n: nat | n < 16

  /** A Guid, as the 32 hexadecimal digits Guid.ToString() prints, in that order. */
  type Guid = s: seq<Nibble> | |s| == 32 witness seq(32, _ => 0)

  function HexDigit(n: Nibble): (c: char)
  {
    if n < 10 then (48 + n) as char else (87 + n) as char
  }

  /** The value of a hexadecimal digit, in either case. */
  function HexValue(c: char): (r: Option<Nibble>)
    ensures r.Some? <==> '0' <= c <= '9' || 'a' <= c <= 'f' || 'A' <= c <= 'F'
    ensures r.Some? ==> HexDigit(r.value) == c || HexDigit(r.value) as int == c as int + 32
  {
    if '0' <= c <= '9' then Some((c as int - 48) as Nibble)
    else if 'a' <= c <= 'f' then Some((c as int - 87) as Nibble)
    else if 'A' <= c <= 'F' then Some((c as int - 55) as Nibble)
    else None
  }

  function Hex(ds: seq<Nibble>): (s: string)
    ensures |s| == |ds|
  {
    if ds == [] then [] else [HexDigit(ds[0])] + Hex(ds[1..])
  }

  /** Reads a run of hexadecimal digits of either case: it fails exactly when some
      character is not a digit, and otherwise gives each digit's value in place. */
  function ParseHex(s: string): (r: Option<seq<Nibble>>)
    ensures r.Some? <==> forall i | 0 <= i < |s| :: HexValue(s[i]).Some?
    ensures r.Some? ==> |r.value| == |s| && forall i | 0 <= i < |s| :: r.value[i] == HexValue(s[i]).value
  {
    if s == [] then Some([])
    else
      var rest := ParseHex(s[1..]);
      assert forall i | 1 <= i < |s| :: s[1..][i - 1] == s[i];
      match (HexValue(s[0]), rest)
      case (Some(d), Some(ds)) => Some([d] + ds)
      case _ => None
  }

  /** Guid.ToString(): the "D" form, 8-4-4-4-12 lower-case digits joined by hyphens. */
  function Format(g: Guid): (s: string)
    ensures HyphenatedShape(s)
  {
    Hex(g[0..8]) + "-" + Hex(g[8..12]) + "-" + Hex(g[12..16]) + "-" + Hex(g[16..20]) + "-" + Hex(g[20..32])
  }

  /** The 32 digit characters of a 36-character "D" form, hyphens dropped. */
  function Digits(s: string): (d: string)
    requires |s| == 36
    ensures |d| == 32
  {
    s[0..8] + s[9..13] + s[14..18] + s[19..23] + s[24..36]
  }

  /** The "D" form's shape: 36 characters with hyphens at 8, 13, 18 and 23. */
  predicate HyphenatedShape(s: string)
  {
    |s| == 36 && s[8] == '-' && s[13] == '-' && s[18] == '-' && s[23] == '-'
  }

  /** Guid.TryParse on the "D" form: it succeeds exactly on the hyphenated shape whose other
      32 characters are hexadecimal digits of either case, and the Guid holds their values. */
  function Parse(s: string): (r: Option<Guid>)
    ensures r.Some? <==> HyphenatedShape(s) && forall i | 0 <= i < 32 :: HexValue(Digits(s)[i]).Some?
    ensures r.Some? ==> forall i | 0 <= i < 32 :: r.value[i] == HexValue(Digits(s)[i]).value
  {
    if HyphenatedShape(s) then
      match ParseHex(Digits(s))
      case Some(ds) => Some(ds)
      case None => None
    else None
  }

  lemma {:induction false} ParseHexOfHex(ds: seq<Nibble>)
    ensures ParseHex(Hex(ds)) == Some(ds)
  {
    if ds != [] {
      ParseHexOfHex(ds[1..]);
      assert Hex(ds)[1..] == Hex(ds[1..]);
      assert [ds[0]] + ds[1..] == ds;
    }
  }

  lemma {:induction false} HexOfSplit(ds: seq<Nibble>, k: nat)
    requires k <= |ds|
    ensures Hex(ds) == Hex(ds[..k]) + Hex(ds[k..])
  {
    if k > 0 {
      HexOfSplit(ds[1..], k - 1);
      assert ds[1..][..k - 1] == ds[..k][1..];
      assert ds[1..][k - 1..] == ds[k..];
    }
  }

  lemma DigitsOfFormat(g: Guid)
    ensures Digits(Format(g)) == Hex(g)
  {
    var s := Format(g);
    assert s[0..8] == Hex(g[0..8]);
    assert s[9..13] == Hex(g[8..12]);
    assert s[14..18] == Hex(g[12..16]);
    assert s[19..23] == Hex(g[16..20]);
    assert s[24..36] == Hex(g[20..32]);
    HexOfSplit(g, 8);
    HexOfSplit(g[8..], 4);
    HexOfSplit(g[12..], 4);
    HexOfSplit(g[16..], 4);
    assert g[8..][..4] == g[8..12] && g[8..][4..] == g[12..];
    assert g[12..][..4] == g[12..16] && g[12..][4..] == g[16..];
    assert g[16..][..4] == g[16..20] && g[16..][4..] == g[20..32];
    assert g[..8] == g[0..8];
  }

  /** Parsing what Guid.ToString() printed gives the Guid back. */
  lemma ParseFormat(g: Guid)
    ensures Parse(Format(g)) == Some(g)
  {
    DigitsOfFormat(g);
    ParseHexOfHex(g);
  }

  /** Distinct Guids print differently. */
  lemma FormatInjective(g1: Guid, g2: Guid)
    ensures Format(g1) == Format(g2) ==> g1 == g2
  {
    ParseFormat(g1);
    ParseFormat(g2);
  }
}
