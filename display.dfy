/** The `Display` impls of `AddressRange`, `Permissions` and `Device` (src/lib.rs:49-108). */
module Display {
  import opened ProcError
  import opened Radix
  import opened Types
  import opened Grammar
  import opened Decode

  /**
   * `begin-end`, each in lowercase hex without padding (`{:x}-{:x}`): the text
   * splits at its first `-` into two tokens whose base-16 values are `begin`
   * and `end`.
   */
  function AddressRangeText(a: AddressRange): (s: string)
    ensures SplitOn(s, '-').Some?
    ensures var (b, e) := SplitOn(s, '-').value;
      AllDigits(b, 16) && AllDigits(e, 16) && Value(b, 16) == a.begin && Value(e, 16) == a.end
  {
    var b, e := LowerHex(a.begin), LowerHex(a.end);
    NoSpaceInDigits(b, 16);
    SplitOnJoin(b, '-', e);
    b + "-" + e
  }

  /**
   * The rendering is the address-range token of the input syntax: it splits at
   * its one `-` into two lowercase hex numbers without leading zeros, which
   * convert back to `begin` and `end`.
   */
  lemma AddressRangeTextRoundTrip(a: AddressRange)
    ensures var s := AddressRangeText(a);
      && SplitOn(s, '-') == Some((LowerHex(a.begin), LowerHex(a.end)))
      && FromStrRadix(LowerHex(a.begin), 16) == Ok(a.begin)
      && FromStrRadix(LowerHex(a.end), 16) == Ok(a.end)
      && (forall i :: 0 <= i < |s| ==> s[i] in "0123456789abcdef-")
  {
    var b, e := LowerHex(a.begin), LowerHex(a.end);
    NoSpaceInDigits(b, 16);
    SplitOnJoin(b, '-', e);
    var s := b + "-" + e;
    forall i | 0 <= i < |s| ensures s[i] in "0123456789abcdef-" {
      if i < |b| { assert s[i] == b[i]; }
      else if i > |b| { assert s[i] == e[i - |b| - 1]; }
    }
  }

  /** The mask as the crate renders it: `r`/`-`, `w`/`-`, then `e`/`-` (not `x`), then `s`/`p`. */
  function PermissionsMask(p: Permissions): (s: string)
    ensures |s| == 4 && s[0] in "r-" && s[1] in "w-" && s[2] in "e-" && s[3] in "sp"
    ensures s[2] == (if p.executable then 'e' else '-')
    ensures DecodePermissions(s) == p.(executable := false, private := !p.shared)
  {
    [ if p.readable then 'r' else '-',
      if p.writable then 'w' else '-',
      if p.executable then 'e' else '-',
      if p.shared then 's' else 'p' ]
  }

  /** `Permissions::fmt`: push one character per flag onto an empty mask. */
  method FormatPermissions(p: Permissions) returns (mask: string)
    ensures mask == PermissionsMask(p)
  {
    mask := "";
    if p.readable {
      mask := mask + ['r'];
    } else {
      mask := mask + ['-'];
    }
    if p.writable {
      mask := mask + ['w'];
    } else {
      mask := mask + ['-'];
    }
    if p.executable {
      mask := mask + ['e'];
    } else {
      mask := mask + ['-'];
    }
    if p.shared {
      mask := mask + ['s'];
    } else {
      mask := mask + ['p'];
    }
  }

  /** As written, rendering then decoding loses `executable`: the mask says `e` where the decoder looks for `x`. */
  lemma MaskLosesExecutable(p: Permissions)
    requires p.executable
    ensures !DecodePermissions(PermissionsMask(p)).executable
    ensures DecodePermissions(PermissionsMask(p)) != p
  {
  }

  /** The mask with `x` in position 2, as the maps syntax writes it. */
  function IntendedPermissionsMask(p: Permissions): (s: string)
    ensures IsPermToken(s)
    ensures p.private == !p.shared ==> DecodePermissions(s) == p
  {
    [ if p.readable then 'r' else '-',
      if p.writable then 'w' else '-',
      if p.executable then 'x' else '-',
      if p.shared then 's' else 'p' ]
  }

  /** Decoding a permission token and rendering it with `x` gives the token back. */
  lemma IntendedMaskInverse(t: string)
    requires IsPermToken(t)
    ensures IntendedPermissionsMask(DecodePermissions(t)) == t
  {
    var s := IntendedPermissionsMask(DecodePermissions(t));
    assert s[0] == t[0] && s[1] == t[1] && s[2] == t[2] && s[3] == t[3];
  }

  /**
   * `{:02}-{:02}`: major and minor in decimal, each zero-padded to at least
   * two digits, joined by `-`. It is not the `major:minor` hex syntax of the
   * input: the text has no `:`, and its halves are decimal numbers of at least
   * two digits denoting major and minor.
   */
  function DeviceText(d: Device): (s: string)
    ensures ':' !in s
    ensures SplitOn(s, '-').Some?
    ensures var (a, b) := SplitOn(s, '-').value;
      && |a| >= 2 && |b| >= 2
      && AllDigits(a, 10) && Value(a, 10) == d.major
      && AllDigits(b, 10) && Value(b, 10) == d.minor
  {
    var a, b := ZeroPad(Decimal(d.major), 2), ZeroPad(Decimal(d.minor), 2);
    PaddedDecimal(d.major);
    PaddedDecimal(d.minor);
    NoSpaceInDigits(a, 10);
    NoSpaceInDigits(b, 10);
    SplitOnJoin(a, '-', b);
    a + "-" + b
  }

  /** A one-digit number prints as that digit. */
  lemma DecimalOneDigit(n: nat)
    requires n < 10
    ensures Decimal(n) == [DigitChar(n)]
  {
  }

  /** A two-digit number prints as its tens digit then its units digit. */
  lemma DecimalTwoDigits(n: nat)
    requires 10 <= n < 100
    ensures Decimal(n) == [DigitChar(n / 10), DigitChar(n % 10)]
  {
    DecimalOneDigit(n / 10);
  }

  /** `Device(8, 17)` prints as `08-17`. */
  lemma DeviceTextExample(d: Device)
    requires d == Device(8, 17)
    ensures DeviceText(d) == "08-17"
  {
    DecimalOneDigit(d.major);
    DecimalTwoDigits(d.minor);
    assert DigitChar(d.major) == '8';
    assert DigitChar(d.minor / 10) == '1' && DigitChar(d.minor % 10) == '7';
    assert ZeroPad("8", 2) == "08";
    assert ZeroPad("17", 2) == "17";
  }

  /** The tokens a record is written with in the maps syntax. */
  function RecordFields(m: Map): Fields
  {
    Fields(
      LowerHex(m.address_range.begin), LowerHex(m.address_range.end),
      IntendedPermissionsMask(m.permissions),
      LowerHex(m.offset),
      LowerHex(m.device.major), LowerHex(m.device.minor),
      Decimal(m.inode),
      PathnameText(m.pathname))
  }

  /** Lowercase hex of a `u64` is a hex token that converts back to it. */
  lemma HexTokenFits(n: u64)
    ensures IsHexToken(LowerHex(n)) && Fits(LowerHex(n), 16) && Value(LowerHex(n), 16) == n
  {
  }

  /** Decimal of a `u64` is a decimal token that converts back to it. */
  lemma DecTokenFits(n: u64)
    ensures IsDecToken(Decimal(n)) && Fits(Decimal(n), 10) && Value(Decimal(n), 10) == n
  {
  }

  lemma RecordFieldsWellFormed(m: Map)
    requires PathnameText(m.pathname) == [] || PathnameText(m.pathname)[0] != ' '
    ensures WellFormed(RecordFields(m)) && AllFit(RecordFields(m))
  {
    HexTokenFits(m.address_range.begin);
    HexTokenFits(m.address_range.end);
    HexTokenFits(m.offset);
    HexTokenFits(m.device.major);
    HexTokenFits(m.device.minor);
    DecTokenFits(m.inode);
  }

  lemma DecodeRecordFields(m: Map)
    requires m.permissions.private == !m.permissions.shared
    requires Canonical(m.pathname)
    requires PathnameText(m.pathname) == [] || PathnameText(m.pathname)[0] != ' '
    ensures DecodeFields(RecordFields(m)) == Ok(m)
  {
    var f := RecordFields(m);
    RecordFieldsWellFormed(m);
    ClassifyPathnameInverse(f.pathname, m.pathname);
    HexTokenFits(m.address_range.begin);
    HexTokenFits(m.address_range.end);
    HexTokenFits(m.offset);
    HexTokenFits(m.device.major);
    HexTokenFits(m.device.minor);
    DecTokenFits(m.inode);
  }

  /**
   * Every record a line can decode to is recovered by writing it back as a
   * line and parsing that line: permissions with `private == !shared`, a
   * canonical pathname that does not start with a space.
   */
  lemma RecordRoundTrip(m: Map)
    requires m.permissions.private == !m.permissions.shared
    requires Canonical(m.pathname)
    requires PathnameText(m.pathname) == [] || PathnameText(m.pathname)[0] != ' '
    ensures ParseLine(RecordFields(m).Line()) == Ok(m)
  {
    var f := RecordFields(m);
    RecordFieldsWellFormed(m);
    TokenizeLine(f);
    DecodeRecordFields(m);
  }
}
