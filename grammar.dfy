/**
 * A hand-written tokenizer standing in for the record grammar (`map.pest`,
 * which is not part of this model). It splits one line into the six fields
 * the decoder walks, in order:
 *
 *   <begin>-<end> <perms> <offset> <major>:<minor> <inode>[ <pathname>]
 *
 * Fields are separated by runs of spaces; the pathname is the rest of the
 * line after the inode and the spaces that follow it, and may be empty.
 */
module Grammar {
  import opened ProcError
  import opened Radix

  /** The tokens of one record, as text. */
  datatype Fields = Fields(
    begin: string, end: string,
    perms: string,
    offset: string,
    major: string, minor: string,
    inode: string,
    pathname: string)
  {
    /** The parsed pairs in the order the grammar yields them; the decoder loops over these. */
    function Entries(): (es: seq<Entry>)
      ensures |es| == 6
      ensures es[0] == AddressRangeEntry(begin, end) && es[1] == PermissionsEntry(perms)
      ensures es[2] == OffsetEntry(offset) && es[3] == DeviceEntry(major, minor)
      ensures es[4] == InodeEntry(inode) && es[5] == PathnameEntry(pathname)
    {
      [ AddressRangeEntry(begin, end), PermissionsEntry(perms), OffsetEntry(offset),
        DeviceEntry(major, minor), InodeEntry(inode), PathnameEntry(pathname) ]
    }

    /** The line with single spaces between fields; no space before an empty pathname. */
    function Line(): string
    {
      var tail := if pathname == [] then "" else " " + pathname;
      (begin + "-" + end) + " " + (perms + " " + (offset + " " + ((major + ":" + minor) + " " + (inode + tail))))
    }
  }

  /** One parsed pair: an inner rule of the record, with its inner tokens. */
  datatype Entry =
    | AddressRangeEntry(begin: string, end: string)
    | PermissionsEntry(perms: string)
    | OffsetEntry(offset: string)
    | DeviceEntry(major: string, minor: string)
    | InodeEntry(inode: string)
    | PathnameEntry(pathname: string)

  predicate IsHexToken(s: string)
  {
    s != [] && AllDigits(s, 16)
  }

  predicate IsDecToken(s: string)
  {
    s != [] && AllDigits(s, 10)
  }

  /** Four characters from `{r,-}{w,-}{x,-}{s,p}`. */
  predicate IsPermToken(s: string)
  {
    |s| == 4 && s[0] in "r-" && s[1] in "w-" && s[2] in "x-" && s[3] in "sp"
  }

  /** Every token has its field's alphabet, and the pathname does not start with a separator. */
  predicate WellFormed(f: Fields)
  {
    && IsHexToken(f.begin) && IsHexToken(f.end)
    && IsPermToken(f.perms)
    && IsHexToken(f.offset)
    && IsHexToken(f.major) && IsHexToken(f.minor)
    && IsDecToken(f.inode)
    && (f.pathname == [] || f.pathname[0] != ' ')
  }

  /** The longest prefix of `s` without a space. */
  function Word(s: string): (w: string)
    ensures |w| <= |s| && w == s[..|w|]
    ensures ' ' !in w
    ensures |w| < |s| ==> s[|w|] == ' '
  {
    if s == [] || s[0] == ' ' then [] else [s[0]] + Word(s[1..])
  }

  /** `s` without its leading spaces. */
  function SkipSpaces(s: string): (t: string)
    ensures |t| <= |s| && t == s[|s| - |t|..]
    ensures t == [] || t[0] != ' '
  {
    if s != [] && s[0] == ' ' then SkipSpaces(s[1..]) else s
  }

  /** The next word and what follows it once the separating spaces are skipped. */
  function NextWord(s: string): (string, string)
  {
    var w := Word(s);
    (w, SkipSpaces(s[|w|..]))
  }

  /** Splits at the first `sep`; `None` when there is none. */
  function SplitOn(s: string, sep: char): (r: Option<(string, string)>)
    ensures r.None? <==> sep !in s
    ensures r.Some? ==> sep !in r.value.0 && s == r.value.0 + [sep] + r.value.1
  {
    if s == [] then None
    else if s[0] == sep then
      assert s == [] + [sep] + s[1..];
      Some(([], s[1..]))
    else match SplitOn(s[1..], sep)
      case None => None
      case Some((a, b)) =>
        assert s == [s[0]] + s[1..];
        Some(([s[0]] + a, b))
  }

  /** The five words of a record and the rest of the line. */
  function SplitWords(line: string): (string, string, string, string, string, string)
  {
    var (range, rest1) := NextWord(line);
    var (perms, rest2) := NextWord(rest1);
    var (offset, rest3) := NextWord(rest2);
    var (device, rest4) := NextWord(rest3);
    var (inode, pathname) := NextWord(rest4);
    (range, perms, offset, device, inode, pathname)
  }

  /** The record rule: the six fields of a line, or `ParseError` when the line does not have that shape. */
  function Tokenize(line: string): (r: Result<Fields>)
    ensures r.Err? ==> r.error == ParseError
    ensures r.Ok? ==> WellFormed(r.value)
  {
    var (range, perms, offset, device, inode, pathname) := SplitWords(line);
    match (SplitOn(range, '-'), SplitOn(device, ':'))
    case (Some((begin, end)), Some((major, minor))) =>
      var f := Fields(begin, end, perms, offset, major, minor, inode, pathname);
      if WellFormed(f) then Ok(f) else Err(ParseError)
    case _ => Err(ParseError)
  }

  lemma WordSplit(w: string, rest: string)
    requires ' ' !in w && (rest == [] || rest[0] == ' ')
    ensures Word(w + rest) == w
  {
    if w != [] {
      assert (w + rest)[1..] == w[1..] + rest;
      assert w == [w[0]] + w[1..];
      WordSplit(w[1..], rest);
    }
  }

  lemma {:induction false} NextWordSplit(w: string, rest: string)
    requires ' ' !in w && (rest == [] || rest[0] != ' ')
    ensures NextWord(w + " " + rest) == (w, rest)
  {
    var s := w + " " + rest;
    assert s == w + (" " + rest);
    WordSplit(w, " " + rest);
    assert s[|w|..] == " " + rest;
    assert (" " + rest)[1..] == rest;
    assert SkipSpaces(" " + rest) == SkipSpaces(rest) == rest;
  }

  lemma NextWordLast(w: string)
    requires ' ' !in w
    ensures NextWord(w) == (w, [])
  {
    WordSplit(w, []);
    assert w + [] == w;
  }

  /** The last word of a line, followed by the pathname (or by nothing when the pathname is empty). */
  lemma NextWordTail(w: string, pathname: string)
    requires ' ' !in w && (pathname == [] || pathname[0] != ' ')
    ensures NextWord(w + (if pathname == [] then "" else " " + pathname)) == (w, pathname)
  {
    if pathname == [] {
      assert w + "" == w;
      NextWordLast(w);
    } else {
      assert w + (" " + pathname) == w + " " + pathname;
      NextWordSplit(w, pathname);
    }
  }

  lemma {:induction false} SplitOnJoin(a: string, sep: char, b: string)
    requires sep !in a
    ensures SplitOn(a + [sep] + b, sep) == Some((a, b))
  {
    if a != [] {
      SplitOnJoin(a[1..], sep, b);
      assert (a + [sep] + b)[1..] == a[1..] + [sep] + b;
      assert a == [a[0]] + a[1..];
    } else {
      assert a + [sep] + b == [sep] + b;
    }
  }

  lemma NoSpaceInDigits(s: string, radix: nat)
    requires AllDigits(s, radix) && radix <= 36
    ensures ' ' !in s && '-' !in s && ':' !in s
  {
    forall i | 0 <= i < |s| ensures s[i] != ' ' && s[i] != '-' && s[i] != ':' {
      assert IsDigit(s[i], radix);
    }
  }

  lemma SplitWordsJoin(range: string, perms: string, offset: string, device: string, inode: string, pathname: string)
    requires ' ' !in range && ' ' !in perms && ' ' !in offset && ' ' !in device && ' ' !in inode
    requires perms != [] && offset != [] && device != [] && inode != []
    requires pathname == [] || pathname[0] != ' '
    ensures var tail := if pathname == [] then "" else " " + pathname;
      SplitWords(range + " " + (perms + " " + (offset + " " + (device + " " + (inode + tail)))))
      == (range, perms, offset, device, inode, pathname)
  {
    var tail := if pathname == [] then "" else " " + pathname;
    var rest4 := inode + tail;
    var rest3 := device + " " + rest4;
    var rest2 := offset + " " + rest3;
    var rest1 := perms + " " + rest2;
    NextWordSplit(range, rest1);
    NextWordSplit(perms, rest2);
    NextWordSplit(offset, rest3);
    NextWordSplit(device, rest4);
    NextWordTail(inode, pathname);
  }

  lemma SplitWordsLine(f: Fields)
    requires WellFormed(f)
    ensures SplitWords(f.Line())
      == (f.begin + "-" + f.end, f.perms, f.offset, f.major + ":" + f.minor, f.inode, f.pathname)
  {
    NoSpaceInDigits(f.begin, 16); NoSpaceInDigits(f.end, 16); NoSpaceInDigits(f.offset, 16);
    NoSpaceInDigits(f.major, 16); NoSpaceInDigits(f.minor, 16); NoSpaceInDigits(f.inode, 10);
    SplitWordsJoin(f.begin + "-" + f.end, f.perms, f.offset, f.major + ":" + f.minor, f.inode, f.pathname);
  }

  /** Tokenizing the rendered line of well-formed fields gives those fields back. */
  lemma TokenizeLine(f: Fields)
    requires WellFormed(f)
    ensures Tokenize(f.Line()) == Ok(f)
  {
    SplitWordsLine(f);
    NoSpaceInDigits(f.begin, 16);
    NoSpaceInDigits(f.major, 16);
    SplitOnJoin(f.begin, '-', f.end);
    SplitOnJoin(f.major, ':', f.minor);
  }
}
