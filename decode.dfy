/** `Map::parse`: from one line to a typed record (src/lib.rs:146-212). */
module Decode {
  import opened ProcError
  import opened Radix
  import opened Types
  import opened Grammar

  /** The permission flags, each read from its fixed position of the token. */
  function DecodePermissions(t: string): (p: Permissions)
    requires |t| >= 4
    ensures p.readable <==> t[0] == 'r'
    ensures p.writable <==> t[1] == 'w'
    ensures p.executable <==> t[2] == 'x'
    ensures p.shared <==> t[3] == 's'
    ensures p.private == !p.shared
  {
    var shared := t[3] == 's';
    Permissions(t[0] == 'r', t[1] == 'w', t[2] == 'x', shared, !shared)
  }

  /** Bracket-shaped text: it starts with `[` and ends with `]`. */
  predicate Bracketed(text: string)
  {
    text != [] && text[0] == '[' && text[|text| - 1] == ']'
  }

  /**
   * The pathname field, classified: empty is an anonymous mapping, a table
   * key is its named variant, other bracketed text is an unknown pseudo-path,
   * anything else is a path. The text itself is never altered.
   */
  function ClassifyPathname(text: string): (p: Pathname)
    ensures PathnameText(p) == text
    ensures p == Mmap <==> text == []
    ensures text in PseudoPathMap ==> p == PseudoPathMap[text]
    ensures p.OtherPseudo? <==> Bracketed(text) && text !in PseudoPathMap
    ensures p.Path? <==> text != [] && !Bracketed(text)
  {
    if text == [] then Mmap
    else if text in PseudoPathMap then PseudoPathMap[text]
    else if text[0] == '[' && text[|text| - 1] == ']' then OtherPseudo(text)
    else Path(text)
  }

  /** The numeric tokens of a record all convert to `u64`. */
  predicate AllFit(f: Fields)
  {
    && Fits(f.begin, 16) && Fits(f.end, 16)
    && Fits(f.offset, 16)
    && Fits(f.major, 16) && Fits(f.minor, 16)
    && Fits(f.inode, 10)
  }

  /**
   * What decoding the six fields yields: the record, or `WidthError` as soon
   * as one numeric token does not convert. No partial record is returned.
   */
  function DecodeFields(f: Fields): (r: Result<Map>)
    requires |f.perms| >= 4
    ensures r.Ok? <==> AllFit(f)
    ensures r.Err? ==> r.error == WidthError
    ensures r.Ok? ==> r.value == Map(
      AddressRange(Value(f.begin, 16), Value(f.end, 16)),
      DecodePermissions(f.perms),
      Value(f.offset, 16),
      Device(Value(f.major, 16), Value(f.minor, 16)),
      Value(f.inode, 10),
      ClassifyPathname(f.pathname))
  {
    var begin :- FromStrRadix(f.begin, 16);
    var end :- FromStrRadix(f.end, 16);
    var offset :- FromStrRadix(f.offset, 16);
    var major :- FromStrRadix(f.major, 16);
    var minor :- FromStrRadix(f.minor, 16);
    var inode :- FromStrRadix(f.inode, 10);
    Ok(Map(AddressRange(begin, end), DecodePermissions(f.perms), offset, Device(major, minor), inode,
           ClassifyPathname(f.pathname)))
  }

  /** The result `Map::parse` returns for a line: tokenize, then decode. */
  function ParseLine(line: string): (r: Result<Map>)
    ensures Tokenize(line).Err? ==> r == Err(ParseError)
    ensures r.Err? ==> r.error in {ParseError, WidthError}
    ensures r.Ok? ==> Tokenize(line).Ok? && AllFit(Tokenize(line).value)
    ensures r.Ok? ==> r.value.permissions.private == !r.value.permissions.shared
  {
    var f :- Tokenize(line);
    DecodeFields(f)
  }

  /** The part of a record that one parsed entry determines holds that entry's decoded value. */
  ghost predicate Holds(m: Map, e: Entry)
  {
    match e
    case AddressRangeEntry(b, en) =>
      Fits(b, 16) && Fits(en, 16) && m.address_range == AddressRange(Value(b, 16), Value(en, 16))
    case PermissionsEntry(t) => |t| >= 4 && m.permissions == DecodePermissions(t)
    case OffsetEntry(o) => Fits(o, 16) && m.offset == Value(o, 16)
    case DeviceEntry(ma, mi) => Fits(ma, 16) && Fits(mi, 16) && m.device == Device(Value(ma, 16), Value(mi, 16))
    case InodeEntry(i) => Fits(i, 10) && m.inode == Value(i, 10)
    case PathnameEntry(p) => m.pathname == ClassifyPathname(p)
  }

  /** The entry carries the tokens of `f` for its rule. */
  ghost predicate FromFields(e: Entry, f: Fields)
  {
    match e
    case AddressRangeEntry(b, en) => b == f.begin && en == f.end
    case PermissionsEntry(t) => t == f.perms
    case OffsetEntry(o) => o == f.offset
    case DeviceEntry(ma, mi) => ma == f.major && mi == f.minor
    case InodeEntry(i) => i == f.inode
    case PathnameEntry(p) => p == f.pathname
  }

  /** `Map::parse`: a line that does not tokenize is a `ParseError`; otherwise its entries are decoded. */
  method Parse(line: string) returns (r: Result<Map>)
    ensures r == ParseLine(line)
  {
    var f :- Tokenize(line);
    r := DecodeEntries(f);
  }

  /**
   * The loop of `Map::parse`: start from the default record and overwrite,
   * entry by entry, the fields each parsed entry determines; the first token
   * that does not convert ends the parse with its error.
   */
  method DecodeEntries(f: Fields) returns (r: Result<Map>)
    requires |f.perms| >= 4
    ensures r == DecodeFields(f)
  {
    var entries := f.Entries();
    assert forall j :: 0 <= j < |entries| ==> FromFields(entries[j], f);
    var record := DefaultMap();
    for i := 0 to |entries|
      invariant forall j :: 0 <= j < i ==> Holds(record, entries[j])
    {
      assert FromFields(entries[i], f);
      match entries[i]
      case AddressRangeEntry(b, e) =>
        var begin :- FromStrRadix(b, 16);
        var end :- FromStrRadix(e, 16);
        record := record.(address_range := record.address_range.(begin := begin, end := end));
      case PermissionsEntry(t) =>
        var shared := t[3] == 's';
        record := record.(permissions := Permissions(t[0] == 'r', t[1] == 'w', t[2] == 'x', shared, !shared));
      case OffsetEntry(o) =>
        var offset :- FromStrRadix(o, 16);
        record := record.(offset := offset);
      case DeviceEntry(ma, mi) =>
        var major :- FromStrRadix(ma, 16);
        var minor :- FromStrRadix(mi, 16);
        record := record.(device := record.device.(major := major, minor := minor));
      case InodeEntry(n) =>
        var inode :- FromStrRadix(n, 10);
        record := record.(inode := inode);
      case PathnameEntry(p) =>
        if p == [] {
          record := record.(pathname := Mmap);
        } else if p in PseudoPathMap {
          record := record.(pathname := PseudoPathMap[p]);
        } else if p[0] == '[' && p[|p| - 1] == ']' {
          record := record.(pathname := OtherPseudo(p));
        } else {
          record := record.(pathname := Path(p));
        }
    }
    assert Holds(record, entries[0]) && Holds(record, entries[1]) && Holds(record, entries[2]);
    assert Holds(record, entries[3]) && Holds(record, entries[4]) && Holds(record, entries[5]);
    return Ok(record);
  }

  /** A pathname that classifying its own text gives back. */
  predicate Canonical(p: Pathname)
  {
    match p
    case OtherPseudo(t) => Bracketed(t) && t !in PseudoPathMap
    case Path(t) => t != [] && !Bracketed(t)
    case _ => true
  }

  /**
   * Classification and `PathnameText` are inverse: every classification is
   * canonical, and a pathname is recovered from its text exactly when it is canonical.
   */
  lemma ClassifyPathnameInverse(text: string, p: Pathname)
    ensures Canonical(ClassifyPathname(text))
    ensures ClassifyPathname(PathnameText(p)) == p <==> Canonical(p)
  {
    if p.OtherPseudo? || p.Path? {
      var t := PathnameText(p);
      assert t in PseudoPathMap ==> PseudoPathMap[t] in {Stack, Vdso, Vvar, Vsyscall, Heap};
    }
  }

  /** Each key of the table, and nothing else, classifies as a named pseudo-path. */
  lemma KnownPseudoPaths(text: string)
    ensures ClassifyPathname("[stack]") == Stack && ClassifyPathname("[vdso]") == Vdso
    ensures ClassifyPathname("[vvar]") == Vvar && ClassifyPathname("[vsyscall]") == Vsyscall
    ensures ClassifyPathname("[heap]") == Heap
    ensures ClassifyPathname(text) in {Stack, Vdso, Vvar, Vsyscall, Heap} <==> text in PseudoPathMap
  {
    var p := ClassifyPathname(text);
    if p in {Stack, Vdso, Vvar, Vsyscall, Heap} {
      assert text == PathnameText(p);
    }
  }

  /** A numeric token whose significant digits cannot fit 64 bits: over 16 hex or 20 decimal digits. */
  predicate Overlong(s: string, radix: nat)
  {
    s != [] && s[0] != '0' && |s| > (if radix == 16 then 16 else 20)
  }

  lemma DecimalOverlong(s: string)
    requires s != [] && AllDigits(s, 10) && s[0] != '0' && |s| > 20
    ensures !Fits(s, 10)
  {
    ValueAtLeastPow(s, 10);
    PowMonotone(10, 20, |s| - 1);
    assert Pow(10, 5) == 100000;
    assert Pow(10, 10) == 10000000000;
    assert Pow(10, 20) == 100000000000000000000;
  }

  /**
   * A line whose tokens are well formed but one of whose numbers has too
   * many significant digits is rejected with `WidthError`: no record, and no
   * truncated value.
   */
  lemma OverlongTokenRejected(f: Fields)
    requires WellFormed(f)
    requires || Overlong(f.begin, 16) || Overlong(f.end, 16) || Overlong(f.offset, 16)
             || Overlong(f.major, 16) || Overlong(f.minor, 16) || Overlong(f.inode, 10)
    ensures ParseLine(f.Line()) == Err(WidthError)
  {
    TokenizeLine(f);
    if Overlong(f.begin, 16) { HexFitsIffAtMost16Digits(f.begin); }
    else if Overlong(f.end, 16) { HexFitsIffAtMost16Digits(f.end); }
    else if Overlong(f.offset, 16) { HexFitsIffAtMost16Digits(f.offset); }
    else if Overlong(f.major, 16) { HexFitsIffAtMost16Digits(f.major); }
    else if Overlong(f.minor, 16) { HexFitsIffAtMost16Digits(f.minor); }
    else { DecimalOverlong(f.inode); }
  }

  /** The default record is never what a line parses to: its `shared` and `private` are both false. */
  lemma DefaultNeverParsed(line: string)
    ensures ParseLine(line) != Ok(DefaultMap())
  {
  }

  /** The example's begin address, digit by digit. */
  lemma ExampleBegin()
    ensures AllDigits("5608dd391000", 16) && Value("5608dd391000", 16) == 0x5608dd391000
  {
    ValueAppend([], '5', 16);
    assert [] + ['5'] == "5";
    assert Value("5", 16) == 0x5;
    ValueAppend("5", '6', 16);
    assert "5" + ['6'] == "56";
    assert Value("56", 16) == 0x56;
    ValueAppend("56", '0', 16);
    assert "56" + ['0'] == "560";
    assert Value("560", 16) == 0x560;
    ValueAppend("560", '8', 16);
    assert "560" + ['8'] == "5608";
    assert Value("5608", 16) == 0x5608;
    ValueAppend("5608", 'd', 16);
    assert "5608" + ['d'] == "5608d";
    assert Value("5608d", 16) == 0x5608d;
    ValueAppend("5608d", 'd', 16);
    assert "5608d" + ['d'] == "5608dd";
    assert Value("5608dd", 16) == 0x5608dd;
    ValueAppend("5608dd", '3', 16);
    assert "5608dd" + ['3'] == "5608dd3";
    assert Value("5608dd3", 16) == 0x5608dd3;
    ValueAppend("5608dd3", '9', 16);
    assert "5608dd3" + ['9'] == "5608dd39";
    assert Value("5608dd39", 16) == 0x5608dd39;
    ValueAppend("5608dd39", '1', 16);
    assert "5608dd39" + ['1'] == "5608dd391";
    assert Value("5608dd391", 16) == 0x5608dd391;
    ValueAppend("5608dd391", '0', 16);
    assert "5608dd391" + ['0'] == "5608dd3910";
    assert Value("5608dd3910", 16) == 0x5608dd3910;
    ValueAppend("5608dd3910", '0', 16);
    assert "5608dd3910" + ['0'] == "5608dd39100";
    assert Value("5608dd39100", 16) == 0x5608dd39100;
    ValueAppend("5608dd39100", '0', 16);
    assert "5608dd39100" + ['0'] == "5608dd391000";
    assert Value("5608dd391000", 16) == 0x5608dd391000;
  }

  /** The example's end address, digit by digit. */
  lemma ExampleEnd()
    ensures AllDigits("5608dd3be000", 16) && Value("5608dd3be000", 16) == 0x5608dd3be000
  {
    ValueAppend([], '5', 16);
    assert [] + ['5'] == "5";
    assert Value("5", 16) == 0x5;
    ValueAppend("5", '6', 16);
    assert "5" + ['6'] == "56";
    assert Value("56", 16) == 0x56;
    ValueAppend("56", '0', 16);
    assert "56" + ['0'] == "560";
    assert Value("560", 16) == 0x560;
    ValueAppend("560", '8', 16);
    assert "560" + ['8'] == "5608";
    assert Value("5608", 16) == 0x5608;
    ValueAppend("5608", 'd', 16);
    assert "5608" + ['d'] == "5608d";
    assert Value("5608d", 16) == 0x5608d;
    ValueAppend("5608d", 'd', 16);
    assert "5608d" + ['d'] == "5608dd";
    assert Value("5608dd", 16) == 0x5608dd;
    ValueAppend("5608dd", '3', 16);
    assert "5608dd" + ['3'] == "5608dd3";
    assert Value("5608dd3", 16) == 0x5608dd3;
    ValueAppend("5608dd3", 'b', 16);
    assert "5608dd3" + ['b'] == "5608dd3b";
    assert Value("5608dd3b", 16) == 0x5608dd3b;
    ValueAppend("5608dd3b", 'e', 16);
    assert "5608dd3b" + ['e'] == "5608dd3be";
    assert Value("5608dd3be", 16) == 0x5608dd3be;
    ValueAppend("5608dd3be", '0', 16);
    assert "5608dd3be" + ['0'] == "5608dd3be0";
    assert Value("5608dd3be0", 16) == 0x5608dd3be0;
    ValueAppend("5608dd3be0", '0', 16);
    assert "5608dd3be0" + ['0'] == "5608dd3be00";
    assert Value("5608dd3be00", 16) == 0x5608dd3be00;
    ValueAppend("5608dd3be00", '0', 16);
    assert "5608dd3be00" + ['0'] == "5608dd3be000";
    assert Value("5608dd3be000", 16) == 0x5608dd3be000;
  }

  /** The example's inode, digit by digit. */
  lemma ExampleInode()
    ensures AllDigits("6572575", 10) && Value("6572575", 10) == 6572575
  {
    ValueAppend([], '6', 10);
    assert [] + ['6'] == "6";
    assert Value("6", 10) == 6;
    ValueAppend("6", '5', 10);
    assert "6" + ['5'] == "65";
    assert Value("65", 10) == 65;
    ValueAppend("65", '7', 10);
    assert "65" + ['7'] == "657";
    assert Value("657", 10) == 657;
    ValueAppend("657", '2', 10);
    assert "657" + ['2'] == "6572";
    assert Value("6572", 10) == 6572;
    ValueAppend("6572", '5', 10);
    assert "6572" + ['5'] == "65725";
    assert Value("65725", 10) == 65725;
    ValueAppend("65725", '7', 10);
    assert "65725" + ['7'] == "657257";
    assert Value("657257", 10) == 657257;
    ValueAppend("657257", '5', 10);
    assert "657257" + ['5'] == "6572575";
    assert Value("6572575", 10) == 6572575;
  }

  /** The example's offset and device numbers. */
  lemma ExampleSmallValues()
    ensures AllDigits("00000000", 16) && Value("00000000", 16) == 0
    ensures AllDigits("08", 16) && Value("08", 16) == 8
    ensures AllDigits("11", 16) && Value("11", 16) == 17
  {
    ZerosValue(8, 16);
    assert Zeros(8) == "00000000";
    ValueAppend([], '0', 16);
    assert [] + ['0'] == "0";
    assert Value("0", 16) == 0x0;
    ValueAppend("0", '8', 16);
    assert "0" + ['8'] == "08";
    assert Value("08", 16) == 0x8;
    ValueAppend([], '1', 16);
    assert [] + ['1'] == "1";
    assert Value("1", 16) == 0x1;
    ValueAppend("1", '1', 16);
    assert "1" + ['1'] == "11";
    assert Value("11", 16) == 0x11;
  }

  lemma ExampleLineInode()
    ensures ("08" + ":" + "11") + " " + ("6572575" + (" " + "/bin/bash")) == "08:11 6572575 /bin/bash"
  {
    assert "6572575" + (" " + "/bin/bash") == "6572575 /bin/bash";
  }

  lemma ExampleLineTail()
    ensures "r--p" + " " + ("00000000" + " " + (("08" + ":" + "11") + " " + ("6572575" + (" " + "/bin/bash"))))
      == "r--p 00000000 08:11 6572575 /bin/bash"
  {
    ExampleLineInode();
    assert "00000000" + " " + "08:11 6572575 /bin/bash" == "00000000 08:11 6572575 /bin/bash";
  }

  lemma ExampleLineHead()
    ensures ("5608dd391000" + "-" + "5608dd3be000") + " " + "r--p 00000000 08:11 6572575 /bin/bash"
      == "5608dd391000-5608dd3be000 r--p 00000000 08:11 6572575 /bin/bash"
  {
    assert "5608dd391000" + "-" + "5608dd3be000" == "5608dd391000-5608dd3be000";
  }

  /** The example line tokenizes into its eight tokens. */
  lemma ExampleTokenize(line: string)
    requires line == "5608dd391000-5608dd3be000 r--p 00000000 08:11 6572575 /bin/bash"
    ensures Tokenize(line) == Ok(Fields("5608dd391000", "5608dd3be000", "r--p", "00000000", "08", "11", "6572575", "/bin/bash"))
  {
    var f := Fields("5608dd391000", "5608dd3be000", "r--p", "00000000", "08", "11", "6572575", "/bin/bash");
    ExampleLineTail();
    ExampleLineHead();
    ExampleBegin();
    ExampleEnd();
    ExampleSmallValues();
    ExampleInode();
    TokenizeLine(f);
  }

  /** The example's tokens decode to the record the unit test expects. */
  lemma ExampleDecode(f: Fields)
    requires f == Fields("5608dd391000", "5608dd3be000", "r--p", "00000000", "08", "11", "6572575", "/bin/bash")
    ensures DecodeFields(f) == Ok(Map(
        AddressRange(0x5608dd391000, 0x5608dd3be000),
        Permissions(true, false, false, false, true),
        0,
        Device(8, 17),
        6572575,
        Path("/bin/bash")))
  {
    ExampleBegin();
    ExampleEnd();
    ExampleSmallValues();
    ExampleInode();
    assert ClassifyPathname(f.pathname) == Path("/bin/bash");
  }

  /** The record line from the crate's own unit test. */
  lemma BinBashExample(line: string)
    requires line == "5608dd391000-5608dd3be000 r--p 00000000 08:11 6572575 /bin/bash"
    ensures ParseLine(line) == Ok(Map(
        AddressRange(0x5608dd391000, 0x5608dd3be000),
        Permissions(true, false, false, false, true),
        0,
        Device(8, 17),
        6572575,
        Path("/bin/bash")))
  {
    ExampleTokenize(line);
    ExampleDecode(Tokenize(line).value);
  }
}
