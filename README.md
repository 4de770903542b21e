# procmaps in Dafny

A model of the record decoder and line iterator of `procmaps`, a Rust crate that reads
the `/proc/<pid>/maps` listing of a Linux process. Each line of that listing describes
one memory mapping:

    5608dd391000-5608dd3be000 r--p 00000000 08:11 6572575 /bin/bash

The model covers these parts of the crate:

- the record types (`Map`, `AddressRange`, `Permissions`, `Device`, `Pathname`);
- the table of known pseudo-paths (`[stack]`, `[vdso]`, `[vvar]`, `[vsyscall]`, `[heap]`);
- `Map::default`;
- `Map::parse`, which decodes the fields of one line;
- `Maps::next`, which reads a listing line by line;
- the `Display` impls of `AddressRange`, `Permissions` and `Device`.

Modules, one per file:

- `ProcError` (`error.dfy`): the three error kinds `Io`, `ParseError` and `WidthError`, plus `Result` and `Option`.
- `Radix` (`radix.dfy`): `u64::from_str_radix` as a checked digit-by-digit accumulation, proved equal to "the digits denote a value below 2^64". It also holds the renderings `{:x}`, `{}` and `{:02}`.
- `Types` (`types.dfy`): the record datatypes, the pseudo-path table and `Map::default`.
- `Grammar` (`grammar.dfy`): a hand-written tokenizer. The record grammar is a separate grammar file that is not part of this model, so this stands in for it. It cuts a line into the six fields `Map::parse` walks over, in order, and it is proved to be the inverse of writing the fields out with single spaces.
- `Decode` (`decode.dfy`):
  - `DecodeFields` and `ParseLine` are the specification of `Map::parse`.
  - `DecodeEntries` is the imperative loop of `Map::parse`. It starts from the default record and overwrites its fields entry by entry. It is proved equal to the specification.
  - Also here: the pathname classification, the overflow lemmas and the worked example from the crate's test.
- `Display` (`display.dfy`):
  - the three renderings;
  - `FormatPermissions`, the character-pushing method;
  - a round trip from a record, through the maps syntax, back to the same record.
- `LineSplit` (`lines.dfy`): how `read_line` cuts the input into lines and how the iterator strips each line's `'\n'`.
- `LineSource` (`maps.dfy`): the `Maps` iterator as a class. Its state is the text the reader yields and a read position. `Next` is proved against `Items`, the sequence of items still to come.

Three behaviours of the code worth noting, which the model keeps:

- `Device` renders in decimal (`{:02}`), not hex (src/lib.rs:106).
- The permission mask renders `e`, not `x`, for an executable mapping (src/lib.rs:81-85); see Findings.
- A numeric token with more than 16 hex digits is accepted when its value still fits in 64 bits, e.g. with leading zeros. `from_str_radix` checks the value, not the length. `Decode.OverlongTokenRejected` states the width failure for tokens without leading zeros.

## Model

| member | source | states |
|---|---|---|
| Radix.Accumulate | src/lib.rs:156-159 | Checked left-to-right accumulation of digits. It succeeds exactly when every character is a digit of the radix and the value is below 2^64; it then returns that value, and otherwise fails with `WidthError` |
| Radix.FromStrRadix | src/lib.rs:156-159 | `u64::from_str_radix`: Ok exactly when the token is non-empty, all digits and below 2^64; the value is the positional value of the digits; otherwise `WidthError` |
| Radix.PrefixValueBounded | src/lib.rs:156-159 | The value of a prefix never exceeds the value of the whole token, so overflowing early means the token overflows |
| Radix.LowerHex | src/lib.rs:51 | `{:x}`: at least one lowercase hex digit, no leading zero unless the number is 0, denoting `n` |
| Radix.Decimal | src/lib.rs:106 | `{}` on an integer: at least one decimal digit, no leading zero unless the number is 0, denoting `n` |
| Radix.ToRadixString | src/lib.rs:51 | `{:x}` and `{}`: at least one lowercase digit, no leading zero unless the number is 0, and the digits denote `n` |
| Radix.ZeroPad | src/lib.rs:106 | The `0` flag with a width: length is the larger of the width and the text's length, the text is the suffix, and only `'0'` is added |
| Radix.PaddedDecimal | src/lib.rs:106 | `{:02}` on an integer: at least two decimal digits that denote the number; a number below 10 gets exactly one leading `0` |
| Radix.LeadingZerosValue | src/lib.rs:106 | Leading zeros do not change the value of a digit string |
| Radix.ValueBelowPow | src/lib.rs:156-159 | A token of k digits denotes less than radix^k |
| Radix.ValueAtLeastPow | src/lib.rs:156-159 | A token of k digits without a leading zero denotes at least radix^(k-1) |
| Radix.HexLimit | src/error.rs:38-42 | 16^16 is the 64-bit limit |
| Radix.HexFitsIffAtMost16Digits | src/lib.rs:156-159 | A hex token without a leading zero fits in `u64` exactly when it has at most 16 digits |
| Types.PseudoPathMapKeys | src/lib.rs:15-21 | Each key of the table maps to one of the five named variants, the one whose text is that key |
| Types.DefaultMap | src/lib.rs:132-143 | `Map::default`: every number is zero, all five permission flags (`readable`, `writable`, `executable`, `shared`, `private`) are false, and the pathname is `Mmap` with empty text |
| Grammar.Fields.Entries | src/lib.rs:152-153 | The parsed pairs are six, in the order address range, permissions, offset, device, inode, pathname, each carrying its own tokens |
| Grammar.SplitOn | src/lib.rs:155-159 | Splitting at a separator: `None` exactly when it is absent; otherwise the first part has no separator, and the parts rejoin to the input |
| Grammar.Tokenize | src/lib.rs:149 | The record rule either fails with `ParseError` or yields well-formed fields: hex, permission, hex, hex:hex, decimal tokens and a pathname that does not start with a space |
| Grammar.SplitOnJoin | src/lib.rs:155-159 | Splitting `a + sep + b` at `sep`, where `a` has no `sep`, gives back `a` and `b` |
| Grammar.SplitWordsLine | src/lib.rs:149 | The words of a rendered line are the address range, permissions, offset, device, inode and pathname |
| Grammar.TokenizeLine | src/lib.rs:149 | Tokenizing the line written from well-formed fields gives those fields back |
| Decode.DecodePermissions | src/lib.rs:161-169 | Positional: readable iff char 0 is `r`, writable iff char 1 is `w`, executable iff char 2 is `x`, shared iff char 3 is `s`, and private is the negation of shared |
| Decode.ClassifyPathname | src/lib.rs:183-202 | The text is always kept. The result is `Mmap` iff the text is empty, and the table's variant for a key. It is `OtherPseudo` iff the text is bracketed and not a key, and `Path` iff it is non-empty and not bracketed |
| Decode.ClassifyPathnameInverse | src/lib.rs:183-202 | Every classification is canonical, and classifying a pathname's text gives it back exactly when it is canonical |
| Decode.KnownPseudoPaths | src/lib.rs:186-192 | The five keys classify as their named variants, and only the keys of the table classify as named pseudo-paths |
| Decode.DecodeFields | src/lib.rs:152-211 | Decoding succeeds exactly when every numeric token fits. The record then holds the base-16 values of begin, end, offset, major and minor, the base-10 inode, the positional permissions and the classified pathname. Otherwise the result is `WidthError` and no partial record |
| Decode.ParseLine | src/lib.rs:146-212 | `Map::parse`: a line the record rule rejects gives `ParseError`; the only errors are `ParseError` and `WidthError`; a success has fitting tokens and `private == !shared` |
| Decode.Parse | src/lib.rs:146-212 | The method is `ParseLine`: tokenize, then decode the entries |
| Decode.DecodeEntries | src/lib.rs:150-211 | The loop that starts from the default record and overwrites fields entry by entry returns exactly `DecodeFields` |
| Decode.DecimalOverlong | src/lib.rs:180-182 | A decimal token of more than 20 digits without a leading zero does not fit in `u64` |
| Decode.OverlongTokenRejected | src/lib.rs:156-181 | If any numeric token of a well-formed line is too long without a leading zero, the line fails with `WidthError` |
| Decode.DefaultNeverParsed | src/lib.rs:132-143 | No line parses to the default record, because parsing always sets exactly one of `shared` and `private` |
| Decode.ExampleBegin | src/lib.rs:278-284 | `5608dd391000` denotes 0x5608dd391000 |
| Decode.ExampleEnd | src/lib.rs:278-285 | `5608dd3be000` denotes 0x5608dd3be000 |
| Decode.ExampleInode | src/lib.rs:278-297 | `6572575` denotes 6572575 in decimal |
| Decode.ExampleSmallValues | src/lib.rs:278-295 | `00000000` denotes 0, `08` denotes 8, and `11` denotes 17 in hex |
| Decode.ExampleTokenize | src/lib.rs:278-280 | The test line tokenizes into its eight tokens |
| Decode.ExampleDecode | src/lib.rs:278-299 | The test line's tokens decode to the record the test asserts |
| Decode.BinBashExample | src/lib.rs:278-299 | The test line parses to the asserted record: begin 0x5608dd391000, end 0x5608dd3be000, r/¬w/¬x/¬s/p, offset 0, device (8, 17), inode 6572575, `Path("/bin/bash")` |
| Display.AddressRangeText | src/lib.rs:49-53 | `AddressRange::fmt` (`{:x}-{:x}`): the text splits at its first `-` into two hex tokens whose values are begin and end |
| Display.AddressRangeTextRoundTrip | src/lib.rs:49-53 | `{:x}-{:x}` is lowercase hex without padding. It splits at its one `-` into two tokens that convert back to begin and end |
| Display.PermissionsMask | src/lib.rs:65-95 | Four characters from `{r,-}{w,-}{e,-}{s,p}`; position 2 is `e` exactly when `executable`. Decoding the mask gives the flags with `executable` lost |
| Display.FormatPermissions | src/lib.rs:65-95 | Pushing one character per flag yields exactly `PermissionsMask` |
| Display.MaskLosesExecutable | src/lib.rs:81-85 | For an executable mapping, decoding the rendered mask does not give back the permissions |
| Display.IntendedPermissionsMask | src/lib.rs:81-85 | With `x` in position 2, the mask is a permission token and decodes back to the permissions whenever `private == !shared` |
| Display.IntendedMaskInverse | src/lib.rs:161-169 | Rendering the decoded flags of a permission token with `x` gives the token back |
| Display.DeviceText | src/lib.rs:104-108 | `Device::fmt` (`{:02}-{:02}`): two decimal numbers of at least two digits joined by `-`, denoting major and minor, with no `:` |
| Display.DecimalOneDigit | src/lib.rs:106 | A number below 10 prints as its one digit |
| Display.DecimalTwoDigits | src/lib.rs:106 | A number from 10 to 99 prints as its tens digit then its units digit |
| Display.DeviceTextExample | src/lib.rs:104-108 | `Device(8, 17)` prints as `08-17` |
| Display.HexTokenFits | src/lib.rs:51 | `{:x}` of a `u64` is a hex token that converts back to the number |
| Display.DecTokenFits | src/lib.rs:180-182 | `{}` of a `u64` is a decimal token that converts back to the number |
| Display.DecodeRecordFields | src/lib.rs:152-211 | Decoding the tokens a record is written with gives that record back |
| Display.RecordRoundTrip | src/lib.rs:146-212 | Any record with `private == !shared` and a canonical pathname that does not start with a space is recovered by parsing the line written from it |
| LineSplit.LineLength | src/lib.rs:224 | One `read_line` consumes up to and including the first `'\n'`, or everything when there is none, and consumes at least one character from non-empty input |
| LineSplit.StripNewline | src/lib.rs:227-231 | At most one trailing `'\n'` is removed and nothing else, so a `'\r'` before it stays |
| LineSplit.Lines | src/lib.rs:223-237 | No lines exactly for empty input, and never more lines than characters |
| LineSplit.LinesOfJoin | src/lib.rs:223-237 | Lines without `'\n'`, each followed by `'\n'` except perhaps a non-empty last one, are read back as exactly those lines |
| LineSplit.LinesFrom | src/lib.rs:224-233 | The lines from a position are the line one read returns there, stripped, followed by the lines from where it stopped |
| LineSource.Items | src/lib.rs:223-237 | One item per line, and none exactly when the input is empty |
| LineSource.ItemsOfLines | src/lib.rs:223-237 | Reading a listing yields one item per line: the parse of that line, in order |
| LineSource.ItemsAfterRead | src/lib.rs:224-233 | The item for the line read at a position is the first remaining item, and the rest follow the read |
| LineSource.Maps.New | src/lib.rs:239-244 | `Maps::new`: positioned at the start; the remaining items are the items of the whole input |
| LineSource.Maps.FromStr | src/lib.rs:263-266 | `from_str`: a reader that never fails, positioned at the start of the string |
| LineSource.Maps.ReadLine | src/lib.rs:224 | `read_line` returns the next line with its `'\n'` and advances past it. It returns the empty string exactly at the end |
| LineSource.Maps.Next | src/lib.rs:223-237 | A failed read yields `Err(Io)` and consumes nothing. A read at the end yields `None`. Otherwise `next` advances past exactly one line and yields the parse of that line without its `'\n'`, which is the first remaining item |

## Left out

- The record grammar file and the parser generator: they are not part of this model. `Grammar.Tokenize` is a hand-written stand-in. Fields are separated by runs of spaces, and the pathname is the rest of the line. It claims no acceptance or rejection rule of the real grammar beyond what `Map::parse` relies on: two inner tokens for the address range and the device, a four-character permission token, and a pathname that may be empty.
- The `unreachable!()` arm (src/lib.rs:205-207): the tokenizer yields only the six entry kinds, so the model has no such arm.
- `from_pid` and `from_path` (src/lib.rs:248-261): filesystem I/O.
- Serde serialization and the JSON/glob reference test: data interchange and filesystem plumbing.
- The error payloads (`io::Error`, the grammar error, `ParseIntError`) and the `Display`/`source` forwarding of `Error`: only the three error kinds are modelled.
- I/O failures. The reader is the text it yields. A failing reader is the position `faultAt` where a read fails; such a read consumes nothing and fails again if retried. Partial reads before an error, and the rejection of invalid UTF-8 by `read_line`, are not modelled.
- Bytes and UTF-8: text is a sequence of characters. The permission checks index characters, which matches byte indexing on the ASCII tokens the grammar admits.
- Radix.FromStrRadix: does not model the leading `+` sign that `u64::from_str_radix` accepts, because the grammar never yields one. A `+` counts as a non-digit and gives `WidthError`.
- `Maps` is generic over any `BufRead` reader; the model fixes one reader over a string.
- `fmt::Formatter`: the `Display` impls are modelled as functions that return the rendered string.

## Findings

| source | as written | input that shows it | evidently intended | confidence | as-written member | corrected member |
|---|---|---|---|---|---|---|
| src/lib.rs:81-85 | `Permissions::fmt` pushes `e` for an executable mapping | `Permissions { readable: true, writable: false, executable: true, shared: false, private: true }` renders `r-ep`; `Map::parse` reads position 2 against `x` (src/lib.rs:166), so the mask decodes with `executable` false | push `x`, the marker the maps syntax and the decoder use, so that rendering then decoding keeps `executable` | not executed; likely | Display.MaskLosesExecutable | Display.IntendedPermissionsMask |
