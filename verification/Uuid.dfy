/** Version ids and data directories: 16 bytes on disk, a string in memory
    (crates/openlake_io/src/xl_meta.rs:777-835). */
module Uuid {
  import opened Bytes

  type Id = u: seq<nat> | |u| == 16 && (forall i :: 0 <= i < |u| ==> u[i] < 256) witness seq(16, _ => 0)

  const NULL: string := "null"

  function Zero(): Id {
    seq(16, _ => 0)
  }

  datatype IdError = BadLength | BadHex

  function HexValue(c: char): Option<nat> {
    if '0' <= c <= '9' then Some((c as int - '0' as int) as nat)
    else if 'a' <= c <= 'f' then Some((c as int - 'a' as int + 10) as nat)
    else if 'A' <= c <= 'F' then Some((c as int - 'A' as int + 10) as nat)
    else None
  }

  function HexDigit(n: nat): (c: char)
    requires n < 16
    ensures HexValue(c) == Some(n)
  {
    if n < 10 then ('0' as int + n) as char else ('a' as int + n - 10) as char
  }

  predicate LowerHex(c: char) {
    '0' <= c <= '9' || 'a' <= c <= 'f'
  }

  lemma LowerHexDigit(c: char)
    requires LowerHex(c)
    ensures HexValue(c).Some? && HexValue(c).value < 16 && HexDigit(HexValue(c).value) == c
  {
  }

  /** `u8::from_str_radix` of two characters, which also takes a leading plus. */
  function PairValue(a: char, b: char): (r: Option<nat>)
    ensures r.Some? ==> r.value < 256
  {
    if a == '+' then HexValue(b)
    else if HexValue(a).Some? && HexValue(b).Some? then Some(16 * HexValue(a).value + HexValue(b).value)
    else None
  }

  function Strip(s: string): string {
    if s == [] then [] else (if s[0] == '-' then [] else [s[0]]) + Strip(s[1..])
  }

  /** The bytes spelled by pairs of characters. */
  function Unhex(h: string): (r: Option<seq<nat>>)
    ensures r.Some? ==> |r.value| == |h| / 2 && forall i :: 0 <= i < |r.value| ==> r.value[i] < 256
  {
    if |h| < 2 then Some([])
    else
      var first, rest := PairValue(h[0], h[1]), Unhex(h[2..]);
      if first.Some? && rest.Some? then Some([first.value] + rest.value) else None
  }

  function Parse(s: string): Result<Id, IdError> {
    if s == "" || s == NULL then Ok(Zero())
    else
      var hex := Strip(s);
      if |hex| != 32 then Err(BadLength)
      else if Unhex(hex).None? then Err(BadHex)
      else Ok(Unhex(hex).value)
  }

  const HEX: string := "0123456789abcdefABCDEF"

  /** 16 pairs of hexadecimal digits in either case, the first of a pair perhaps a plus. */
  predicate Spells(h: string) {
    |h| == 32 && forall i: nat {:trigger PairAt(h, i)} :: i < 16 ==> PairAt(h, i)
  }

  predicate PairAt(h: string, i: nat) {
    2 * i + 1 < |h| && (h[2 * i] in HEX || h[2 * i] == '+') && h[2 * i + 1] in HEX
  }

  lemma HexIff(c: char)
    ensures HexValue(c).Some? <==> c in HEX
  {
    assert HEX[0] == '0' && HEX[1] == '1' && HEX[2] == '2' && HEX[3] == '3' && HEX[4] == '4' && HEX[5] == '5';
    assert HEX[6] == '6' && HEX[7] == '7' && HEX[8] == '8' && HEX[9] == '9' && HEX[10] == 'a' && HEX[11] == 'b';
    assert HEX[12] == 'c' && HEX[13] == 'd' && HEX[14] == 'e' && HEX[15] == 'f' && HEX[16] == 'A' && HEX[17] == 'B';
    assert HEX[18] == 'C' && HEX[19] == 'D' && HEX[20] == 'E' && HEX[21] == 'F' && |HEX| == 22;
  }

  lemma FirstPair(h: string)
    requires |h| >= 2
    ensures PairAt(h, 0) <==> PairValue(h[0], h[1]).Some?
  {
    hide HexValue;
    HexIff(h[0]);
    HexIff(h[1]);
    HexIff('+');
  }

  lemma LaterPair(h: string, i: nat)
    requires |h| >= 2 && i > 0
    ensures PairAt(h, i) <==> PairAt(h[2..], i - 1)
  {
  }

  lemma {:induction false} UnhexIff(h: string)
    ensures Unhex(h).Some? <==> forall i: nat {:trigger PairAt(h, i)} :: i < |h| / 2 ==> PairAt(h, i)
  {
    hide PairAt, PairValue;
    if |h| >= 2 {
      UnhexIff(h[2..]);
      FirstPair(h);
      forall i: nat | i > 0
        ensures PairAt(h, i) <==> PairAt(h[2..], i - 1)
      {
        LaterPair(h, i);
      }
      forall i: nat
        ensures PairAt(h[2..], i) <==> PairAt(h, i + 1)
      {
        LaterPair(h, i + 1);
      }
    }
  }

  /** The strings that name an id: empty, null, or dashes aside 32 characters of hex. */
  lemma ParseIff(s: string)
    ensures Parse(s).Ok? <==> s == "" || s == NULL || Spells(Strip(s))
  {
    hide Unhex, PairAt;
    UnhexIff(Strip(s));
  }

  function Hex(u: seq<nat>): (h: string)
    requires forall i :: 0 <= i < |u| ==> u[i] < 256
    ensures |h| == 2 * |u|
    ensures forall i :: 0 <= i < |h| ==> LowerHex(h[i])
  {
    if u == [] then [] else [HexDigit(u[0] / 16), HexDigit(u[0] % 16)] + Hex(u[1..])
  }

  /** 8-4-4-4-12. */
  function Dashed(h: string): string
    requires |h| == 32
  {
    h[..8] + "-" + h[8..12] + "-" + h[12..16] + "-" + h[16..20] + "-" + h[20..]
  }

  function FormatHex(u: Id): string {
    Dashed(Hex(u))
  }

  function FormatVersionId(u: Id): string {
    if u == Zero() then NULL else FormatHex(u)
  }

  function FormatDataDir(u: Id): string {
    if u == Zero() then "" else FormatHex(u)
  }

  /** What a version id that was stored is read back as. */
  function VersionIdBack(s: string): string {
    if Parse(s).Ok? then FormatVersionId(Parse(s).value) else s
  }

  function DataDirBack(s: string): string {
    if Parse(s).Ok? then FormatDataDir(Parse(s).value) else s
  }

  // ----- Bytes and hex digits

  lemma {:induction false} UnhexHex(u: seq<nat>)
    requires forall i :: 0 <= i < |u| ==> u[i] < 256
    ensures Unhex(Hex(u)) == Some(u)
  {
    if u != [] {
      UnhexHex(u[1..]);
      var h := Hex(u);
      assert h[2..] == Hex(u[1..]);
      assert h[0] == HexDigit(u[0] / 16) && h[1] == HexDigit(u[0] % 16);
      assert LowerHex(h[0]);
      assert PairValue(h[0], h[1]) == Some(u[0]);
      assert u == [u[0]] + u[1..];
    }
  }

  lemma {:induction false} HexUnhex(h: string)
    requires |h| % 2 == 0 && forall i :: 0 <= i < |h| ==> LowerHex(h[i])
    ensures Unhex(h).Some? && Hex(Unhex(h).value) == h
  {
    if h != [] {
      HexUnhex(h[2..]);
      LowerHexDigit(h[0]);
      LowerHexDigit(h[1]);
      var u := Unhex(h).value;
      assert u[1..] == Unhex(h[2..]).value;
      assert u[0] / 16 == HexValue(h[0]).value && u[0] % 16 == HexValue(h[1]).value;
      assert h == [h[0], h[1]] + h[2..];
    }
  }

  // ----- Dashes

  lemma {:induction false} StripAppend(a: string, b: string)
    ensures Strip(a + b) == Strip(a) + Strip(b)
  {
    if a == [] {
      assert a + b == b;
    } else {
      StripAppend(a[1..], b);
      var kept := if a[0] == '-' then [] else [a[0]];
      assert (a + b)[1..] == a[1..] + b && (a + b)[0] == a[0];
      assert Strip(a + b) == kept + (Strip(a[1..]) + Strip(b));
    }
  }

  lemma {:induction false} StripHex(h: string)
    requires forall i :: 0 <= i < |h| ==> LowerHex(h[i])
    ensures Strip(h) == h
  {
    if h != [] {
      StripHex(h[1..]);
      assert LowerHex(h[0]);
    }
  }

  lemma StripGroup(a: string, h: string, i: nat, j: nat)
    requires i <= j <= |h| && (forall k :: 0 <= k < |h| ==> LowerHex(h[k])) && Strip(a) == h[..i]
    ensures Strip(a + h[i..j]) == h[..j]
    ensures Strip(a + h[i..j] + "-") == h[..j]
  {
    StripAppend(a, h[i..j]);
    StripHex(h[i..j]);
    assert h[..i] + h[i..j] == h[..j];
    StripAppend(a + h[i..j], "-");
    assert Strip("-") == "";
  }

  lemma StripDashed(h: string)
    requires |h| == 32 && forall i :: 0 <= i < |h| ==> LowerHex(h[i])
    ensures Strip(Dashed(h)) == h
  {
    StripGroup("", h, 0, 8);
    assert "" + h[0..8] == h[..8];
    StripGroup(h[..8] + "-", h, 8, 12);
    StripGroup(h[..8] + "-" + h[8..12] + "-", h, 12, 16);
    StripGroup(h[..8] + "-" + h[8..12] + "-" + h[12..16] + "-", h, 16, 20);
    StripGroup(h[..8] + "-" + h[8..12] + "-" + h[12..16] + "-" + h[16..20] + "-", h, 20, 32);
    assert h[20..32] == h[20..] && h[..32] == h;
  }

  // ----- Round trips

  /** Every id is read back from either of its spellings. */
  lemma ParseFormat(u: Id)
    ensures Parse(FormatVersionId(u)) == Ok(u)
    ensures Parse(FormatDataDir(u)) == Ok(u)
  {
    hide Dashed, Hex, Unhex;
    if u != Zero() {
      StripDashed(Hex(u));
      UnhexHex(u);
      NotSentinel(Hex(u));
    }
  }

  lemma NotSentinel(h: string)
    requires |h| == 32
    ensures |Dashed(h)| == 36 && Dashed(h) != "" && Dashed(h) != NULL
  {
  }

  /** The spelling this module writes: lower-case 8-4-4-4-12 and not all zeros. */
  predicate CanonicalUuid(s: string) {
    var h := Strip(s);
    && |h| == 32 && s == Dashed(h)
    && (forall i :: 0 <= i < |h| ==> LowerHex(h[i]))
    && exists i :: 0 <= i < |h| && h[i] != '0'
  }

  lemma {:induction false} ZerosHex(u: seq<nat>)
    requires forall i :: 0 <= i < |u| ==> u[i] < 256
    ensures (forall i :: 0 <= i < |u| ==> u[i] == 0) <==> (forall i :: 0 <= i < |Hex(u)| ==> Hex(u)[i] == '0')
  {
    if u != [] {
      var h := Hex(u);
      ZerosHex(u[1..]);
      assert h[2..] == Hex(u[1..]);
      assert h[0] == HexDigit(u[0] / 16) && h[1] == HexDigit(u[0] % 16);
      assert u[0] == 0 <==> h[0] == '0' && h[1] == '0';
      assert forall i :: 0 <= i < |u[1..]| ==> u[1..][i] == u[i + 1];
      assert forall i :: 0 <= i < |h[2..]| ==> h[2..][i] == h[i + 2];
      if forall i :: 0 <= i < |u| ==> u[i] == 0 {
        forall i | 0 <= i < |h|
          ensures h[i] == '0'
        {
          if i >= 2 {
            assert h[i] == h[2..][i - 2];
          }
        }
      }
    }
  }

  lemma NonZeroHex(u: Id)
    ensures u != Zero() <==> exists i :: 0 <= i < |Hex(u)| && Hex(u)[i] != '0'
  {
    ZerosHex(u);
    assert (forall i :: 0 <= i < |u| ==> u[i] == 0) ==> u == Zero();
  }

  lemma CanonicalFormat(u: Id)
    requires u != Zero()
    ensures CanonicalUuid(FormatHex(u))
  {
    hide Dashed, Hex;
    StripDashed(Hex(u));
    NonZeroHex(u);
  }

  /** A canonical uuid is parsed, and written back as it was. */
  lemma CanonicalRoundTrip(s: string)
    requires CanonicalUuid(s)
    ensures Parse(s).Ok? && Parse(s).value != Zero() && FormatHex(Parse(s).value) == s
  {
    hide Dashed, Hex, Unhex;
    var h := Strip(s);
    HexUnhex(h);
    NotSentinel(h);
    NonZeroHex(Parse(s).value);
  }

  /** An accepted version id survives the disk exactly when it is the null
      version's name or a canonical uuid; every other spelling (upper case, other
      or no dashes, plus signs, the empty string, all zeros) comes back changed. */
  lemma VersionIdSurvives(s: string)
    requires Parse(s).Ok?
    ensures VersionIdBack(s) == s <==> s == NULL || CanonicalUuid(s)
  {
    hide Dashed, Hex, Unhex, Strip;
    var u := Parse(s).value;
    if CanonicalUuid(s) {
      CanonicalRoundTrip(s);
    } else if FormatVersionId(u) == s && u != Zero() {
      CanonicalFormat(u);
    }
  }

  /** The same for a data directory, whose empty spelling means none. */
  lemma DataDirSurvives(s: string)
    requires Parse(s).Ok?
    ensures DataDirBack(s) == s <==> s == "" || CanonicalUuid(s)
  {
    hide Dashed, Hex, Unhex, Strip;
    var u := Parse(s).value;
    if CanonicalUuid(s) {
      CanonicalRoundTrip(s);
    } else if FormatDataDir(u) == s && u != Zero() {
      CanonicalFormat(u);
    }
  }
}
