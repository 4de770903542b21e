/**
 * `Maps`, the iterator that reads a listing line by line and decodes each
 * line (src/lib.rs:214-244), and `from_str`, which wraps a string in one
 * (src/lib.rs:263-266). The reader is modelled as the text it yields and a
 * read position; a failing reader is modelled by `faultAt`, the position at
 * which a read fails.
 */
module LineSource {
  import opened ProcError
  import opened Types
  import opened Decode
  import opened LineSplit

  /** `f` applied to each element, in order. */
  function Apply<A, B>(f: A -> B, xs: seq<A>): (ys: seq<B>)
    ensures |ys| == |xs|
  {
    if xs == [] then [] else [f(xs[0])] + Apply(f, xs[1..])
  }

  lemma ApplyPrepend<A, B>(f: A -> B, x: A, xs: seq<A>)
    ensures Apply(f, [x] + xs) == [f(x)] + Apply(f, xs)
  {
    assert ([x] + xs)[1..] == xs;
  }

  lemma {:induction false} ApplyIndex<A, B>(f: A -> B, xs: seq<A>)
    ensures forall i :: 0 <= i < |xs| ==> Apply(f, xs)[i] == f(xs[i])
  {
    if xs != [] {
      ApplyIndex(f, xs[1..]);
      assert forall i :: 1 <= i < |xs| ==> Apply(f, xs)[i] == Apply(f, xs[1..])[i - 1];
    }
  }

  /** What parsing each line gives, in order. */
  function ParseAll(lines: seq<string>): (rs: seq<Result<Map>>)
    ensures |rs| == |lines|
  {
    Apply(ParseLine, lines)
  }

  /** The items the iterator yields for the rest of a listing `s`, one per line. */
  function Items(s: string): (items: seq<Result<Map>>)
    ensures items == [] <==> s == []
    ensures |items| == |Lines(s)|
  {
    ParseAll(Lines(s))
  }

  /**
   * Reading a listing of lines without `'\n'`, each ended by `'\n'` except
   * perhaps a non-empty last one, yields one item per line: the parse of that
   * line, in order.
   */
  lemma ItemsOfLines(lines: seq<string>, last: string)
    requires forall i :: 0 <= i < |lines| ==> '\n' !in lines[i]
    requires '\n' !in last
    ensures var all := lines + (if last == [] then [] else [last]);
      var items := Items(JoinLines(lines) + last);
      |items| == |all| && forall i :: 0 <= i < |all| ==> items[i] == ParseLine(all[i])
  {
    LinesOfJoin(lines, last);
    ApplyIndex(ParseLine, lines + (if last == [] then [] else [last]));
  }

  /**
   * One read from `start`: applying `f` to the lines from `start` gives `f` of
   * the line read there, then `f` applied to the lines from where the read stopped.
   */
  lemma ApplyAfterRead<B>(f: string -> B, data: string, start: nat, end: nat, line: string)
    requires start < |data|
    requires end == start + LineLength(data[start..]) && line == data[start..end]
    ensures Apply(f, Lines(data[start..])) == [f(StripNewline(line))] + Apply(f, Lines(data[end..]))
  {
    LinesFrom(data, start, end, line);
    ApplyPrepend(f, StripNewline(line), Lines(data[end..]));
  }

  /** `Next`'s step on the items: the item it yields is the first one from `start`, and the rest follow `end`. */
  lemma ItemsAfterRead(data: string, start: nat, end: nat, line: string, item: Result<Map>)
    requires start < |data|
    requires end == start + LineLength(data[start..]) && line == data[start..end]
    requires item == ParseLine(StripNewline(line))
    ensures Items(data[start..]) == [item] + Items(data[end..])
  {
    ApplyAfterRead(ParseLine, data, start, end, line);
  }

  class Maps {
    /** Everything the reader will yield. */
    const data: string
    /** The read position at which the reader fails, if any. */
    const faultAt: Option<nat>
    /** How much of `data` has been consumed. */
    var pos: nat

    predicate Valid()
      reads this
    {
      pos <= |data|
    }

    /** The items still to come when no read fails. */
    function Remaining(): seq<Result<Map>>
      reads this
      requires Valid()
    {
      Items(data[pos..])
    }

    /** `Maps::new`: a reader positioned at its start. */
    constructor New(data: string, faultAt: Option<nat>)
      ensures Valid()
      ensures this.data == data && this.faultAt == faultAt && pos == 0
      ensures Remaining() == Items(data)
    {
      this.data := data;
      this.faultAt := faultAt;
      pos := 0;
      new;
      assert data[0..] == data;
    }

    /** `from_str`: a reader over a string, which never fails. */
    constructor FromStr(maps_data: string)
      ensures Valid()
      ensures data == maps_data && faultAt == None && pos == 0
      ensures Remaining() == Items(maps_data)
    {
      data := maps_data;
      faultAt := None;
      pos := 0;
      new;
      assert maps_data[0..] == maps_data;
    }

    /**
     * `read_line`: consumes the next line, its `'\n'` included, and returns it;
     * at the end of the data it returns the empty string.
     */
    method ReadLine() returns (line: string)
      requires Valid()
      modifies this
      ensures Valid()
      ensures pos == old(pos) + LineLength(data[old(pos)..])
      ensures line == data[old(pos)..pos]
      ensures line == [] <==> old(pos) == |data|
    {
      var n := LineLength(data[pos..]);
      line := data[pos..pos + n];
      pos := pos + n;
    }

    /**
     * `Iterator::next`: a failed read yields an `Io` error and consumes
     * nothing; at the end of the data it yields `None`; otherwise it consumes
     * one line and yields the parse of that line without its `'\n'`, which is
     * the first of the remaining items.
     */
    method Next() returns (item: Option<Result<Map>>)
      requires Valid()
      modifies this
      ensures Valid()
      ensures faultAt == Some(old(pos)) ==> item == Some(Err(Io)) && pos == old(pos)
      ensures faultAt != Some(old(pos)) && old(pos) == |data| ==> item == None && pos == old(pos)
      ensures faultAt != Some(old(pos)) && old(pos) < |data| ==>
        && item.Some?
        && pos == old(pos) + LineLength(data[old(pos)..])
        && item.value == ParseLine(StripNewline(data[old(pos)..pos]))
        && old(Remaining()) == [item.value] + Remaining()
    {
      if faultAt == Some(pos) {
        return Some(Err(Io));
      }
      ghost var start := pos;
      var lineBuf := ReadLine();
      if lineBuf == [] {
        return None;
      }
      ghost var line := lineBuf;
      if lineBuf[|lineBuf| - 1] == '\n' {
        lineBuf := lineBuf[..|lineBuf| - 1];
      }
      assert lineBuf == StripNewline(line);
      var r := Parse(lineBuf);
      ItemsAfterRead(data, start, pos, line, r);
      item := Some(r);
    }
  }
}
