/** internal/filesection/section.go: a piece as consecutive sections of files, read and
    written section by section. `Flat` is the concatenation of all files, in which a
    piece is one interval. */
module Storage {
  import opened Common

  datatype Section = Section(file: nat, offset: nat, length: nat)

  function Lengths(files: seq<bytes>): (r: seq<nat>)
    ensures |r| == |files| && forall i :: 0 <= i < |files| ==> r[i] == |files[i]|
  {
    seq(|files|, i requires 0 <= i < |files| => |files[i]|)
  }

  /** Total length of the first n files: where file n starts in Flat. */
  function FileStart(lengths: seq<nat>, n: nat): nat
    requires n <= |lengths|
  {
    if n == 0 then 0 else FileStart(lengths, n - 1) + lengths[n - 1]
  }

  function Total(lengths: seq<nat>): nat {
    FileStart(lengths, |lengths|)
  }

  function Flat(files: seq<bytes>): bytes {
    if files == [] then [] else Flat(files[..|files| - 1]) + files[|files| - 1]
  }

  lemma {:induction false} FileStartPrefix(lengths: seq<nat>, m: nat, n: nat)
    requires m <= n <= |lengths|
    ensures FileStart(lengths[..n], m) == FileStart(lengths, m)
  {
    if m > 0 { FileStartPrefix(lengths, m - 1, n); }
  }

  lemma {:induction false} FileStartMonotone(lengths: seq<nat>, m: nat, n: nat)
    requires m <= n <= |lengths|
    ensures FileStart(lengths, m) <= FileStart(lengths, n)
    decreases n
  {
    if m < n { FileStartMonotone(lengths, m, n - 1); }
  }

  lemma {:induction false} FlatLength(files: seq<bytes>)
    ensures |Flat(files)| == Total(Lengths(files))
  {
    if files != [] {
      var n := |files| - 1;
      FlatLength(files[..n]);
      assert Lengths(files[..n]) == Lengths(files)[..n];
      FileStartPrefix(Lengths(files), n, n);
    }
  }

  /** File f is the interval of Flat that begins at FileStart(f). */
  lemma {:induction false} FlatFile(files: seq<bytes>, f: nat)
    requires f < |files|
    ensures var at := FileStart(Lengths(files), f);
            at + |files[f]| <= |Flat(files)| && Flat(files)[at..at + |files[f]|] == files[f]
  {
    var n := |files| - 1;
    FlatLength(files[..n]);
    assert Lengths(files[..n]) == Lengths(files)[..n];
    FileStartPrefix(Lengths(files), f, n);
    FileStartPrefix(Lengths(files), n, n);
    if f < n { FlatFile(files[..n], f); }
  }

  /** Overwriting part of one file overwrites the same part of Flat and nothing else. */
  lemma {:induction false} FlatUpdate(files: seq<bytes>, f: nat, offset: nat, data: bytes)
    requires f < |files| && offset + |data| <= |files[f]|
    ensures var at := FileStart(Lengths(files), f) + offset;
            && at + |data| <= |Flat(files)|
            && Flat(files[f := Splice(files[f], offset, data)]) == Splice(Flat(files), at, data)
  {
    hide Splice, FileStart, Flat;
    var n := |files| - 1;
    FlatFile(files, f);
    FlatSnoc(files, f, n);
    if f < n {
      FlatUpdate(files[..n], f, offset, data);
      FileReplaced(files, f, n, Splice(files[f], offset, data));
      SpliceLeft(Flat(files[..n]), files[n], FileStart(Lengths(files), f) + offset, data);
    } else {
      FileReplaced(files, f, n, Splice(files[f], offset, data));
      SpliceRight(Flat(files[..n]), files[n], offset, data);
    }
  }

  lemma FlatSnoc(files: seq<bytes>, f: nat, n: nat)
    requires f <= n == |files| - 1
    ensures Flat(files) == Flat(files[..n]) + files[n] && |Flat(files[..n])| == FileStart(Lengths(files), n)
    ensures FileStart(Lengths(files[..n]), f) == FileStart(Lengths(files), f)
  {
    assert Lengths(files[..n]) == Lengths(files)[..n];
    FileStartPrefix(Lengths(files), f, n);
    FileStartPrefix(Lengths(files), n, n);
    FlatLength(files[..n]);
  }

  lemma FileReplaced(files: seq<bytes>, f: nat, n: nat, data: bytes)
    requires f <= n == |files| - 1
    ensures Flat(files[f := data]) == if f < n then Flat(files[..n][f := data]) + files[n] else Flat(files[..n]) + data
  {
    assert files[f := data][..n] == if f < n then files[..n][f := data] else files[..n];
  }

  lemma SpliceLeft(f: bytes, g: bytes, at: nat, data: bytes)
    requires at + |data| <= |f|
    ensures Splice(f, at, data) + g == Splice(f + g, at, data)
  {
  }

  lemma SpliceRight(f: bytes, g: bytes, at: nat, data: bytes)
    requires at + |data| <= |g|
    ensures f + Splice(g, at, data) == Splice(f + g, |f| + at, data)
  {
  }

  // ---- sections

  ghost predicate Inside(lengths: seq<nat>, s: Section) {
    s.file < |lengths| && s.offset + s.length <= lengths[s.file]
  }

  ghost function Pos(lengths: seq<nat>, s: Section): nat
    requires s.file < |lengths|
  {
    FileStart(lengths, s.file) + s.offset
  }

  function SectionsLength(p: seq<Section>): nat {
    if p == [] then 0 else SectionsLength(p[..|p| - 1]) + p[|p| - 1].length
  }

  /** The sections lie in their files and follow each other in Flat without gap or
      overlap, from a to z. */
  ghost predicate Tiles(lengths: seq<nat>, p: seq<Section>, a: nat, z: nat) {
    if p == [] then a == z
    else
      var s := p[|p| - 1];
      && Inside(lengths, s)
      && s.length <= z && Pos(lengths, s) == z - s.length
      && Tiles(lengths, p[..|p| - 1], a, z - s.length)
  }

  function SectionBytes(files: seq<bytes>, s: Section): bytes {
    if s.file < |files| && s.offset + s.length <= |files[s.file]| then files[s.file][s.offset..s.offset + s.length]
    else []
  }

  ghost function Bytes(files: seq<bytes>, p: seq<Section>): bytes {
    if p == [] then [] else Bytes(files, p[..|p| - 1]) + SectionBytes(files, p[|p| - 1])
  }

  lemma {:induction false} TilesInside(lengths: seq<nat>, p: seq<Section>, a: nat, z: nat)
    requires Tiles(lengths, p, a, z)
    ensures a <= z <= Total(lengths) || p == []
    ensures a <= z && z - a == SectionsLength(p)
    ensures forall k :: 0 <= k < |p| ==> Inside(lengths, p[k])
  {
    if p != [] {
      var s := p[|p| - 1];
      TilesInside(lengths, p[..|p| - 1], a, z - s.length);
      FileStartMonotone(lengths, s.file + 1, |lengths|);
    }
  }

  lemma SectionIsSlice(files: seq<bytes>, s: Section)
    requires Inside(Lengths(files), s)
    ensures var at := Pos(Lengths(files), s);
            at + s.length <= |Flat(files)| && SectionBytes(files, s) == Flat(files)[at..at + s.length]
  {
    FlatFile(files, s.file);
    var start := FileStart(Lengths(files), s.file);
    SliceSlice(Flat(files), start, start + |files[s.file]|, s.offset, s.offset + s.length);
  }

  /** Reading the sections one after the other reads one interval of Flat. */
  lemma {:induction false} TilesBytes(files: seq<bytes>, p: seq<Section>, a: nat, z: nat)
    requires Tiles(Lengths(files), p, a, z) && a <= z <= |Flat(files)|
    ensures Bytes(files, p) == Flat(files)[a..z]
  {
    if p != [] {
      var s, front := p[|p| - 1], p[..|p| - 1];
      var m: nat := z - s.length;
      TilesInside(Lengths(files), front, a, m);
      TilesBytes(files, front, a, m);
      SectionIsSlice(files, s);
      assert Pos(Lengths(files), s) == m && m + s.length == z;
      assert SectionBytes(files, s) == Flat(files)[m..z];
      SliceConcat(Flat(files), a, m, z);
    }
  }

  /** Behind the last section the original indexes past its list of sections. */
  datatype ReadResult = Full(data: bytes) | UnexpectedEOF | OutOfRange

  lemma {:induction false} PrefixLength(p: seq<Section>, i: nat, j: nat)
    requires i <= j <= |p|
    ensures SectionsLength(p[..i]) <= SectionsLength(p[..j])
    decreases j
  {
    if i < j {
      assert p[..j][..j - 1] == p[..j - 1];
      PrefixLength(p, i, j - 1);
    }
  }

  lemma LengthSnoc(p: seq<Section>, i: nat)
    requires i < |p|
    ensures SectionsLength(p[..i + 1]) == SectionsLength(p[..i]) + p[i].length
  {
    assert p[..i + 1][..i] == p[..i];
  }

  lemma BytesSnoc(files: seq<bytes>, p: seq<Section>, i: nat)
    requires i < |p|
    ensures Bytes(files, p[..i + 1]) == Bytes(files, p[..i]) + SectionBytes(files, p[i])
  {
    assert p[..i + 1][..i] == p[..i];
  }

  lemma {:induction false} BytesLength(files: seq<bytes>, p: seq<Section>)
    requires forall k :: 0 <= k < |p| ==> Inside(Lengths(files), p[k])
    ensures |Bytes(files, p)| == SectionsLength(p)
  {
    if p != [] { BytesLength(files, p[..|p| - 1]); }
  }

  lemma {:induction false} BytesPrefix(files: seq<bytes>, p: seq<Section>, i: nat)
    requires forall k :: 0 <= k < |p| ==> Inside(Lengths(files), p[k])
    requires i <= |p|
    ensures SectionsLength(p[..i]) <= |Bytes(files, p)|
    ensures Bytes(files, p)[..SectionsLength(p[..i])] == Bytes(files, p[..i])
  {
    BytesLength(files, p[..i]);
    if i < |p| {
      BytesPrefix(files, p[..|p| - 1], i);
      assert p[..|p| - 1][..i] == p[..i];
    } else {
      assert p[..i] == p;
    }
  }

  /** The open files of a torrent. */
  class Disk {
    var files: seq<bytes>

    constructor (files: seq<bytes>)
      ensures this.files == files
    {
      this.files := files;
    }

    /** The first section that ends at or behind `off`, and where it ends; |p| when there
        is none. */
    method SkipTo(p: seq<Section>, off: nat) returns (i: nat, pos: nat)
      ensures i <= |p| && (i < |p| <==> p != [] && off <= SectionsLength(p))
      ensures i < |p| ==> pos == SectionsLength(p[..i + 1]) && SectionsLength(p[..i]) <= off <= pos
    {
      i, pos := 0, 0;
      while i < |p|
        invariant i <= |p| && pos == SectionsLength(p[..i])
        invariant i > 0 ==> pos < off
      {
        LengthSnoc(p, i);
        PrefixLength(p, i + 1, |p|);
        assert p[..|p|] == p;
        pos := pos + p[i].length;
        if pos >= off { break; }
        i := i + 1;
      }
      assert p[..|p|] == p;
    }

    /** What the section readers chained for a read of n bytes at `off` deliver: the rest
        of the first section, then whole sections until n bytes are covered. */
    method Chained(p: seq<Section>, n: nat, off: nat, first: nat, end0: nat)
      returns (stream: bytes, ghost i: nat, ghost pos: nat)
      requires forall k :: 0 <= k < |p| ==> Inside(Lengths(files), p[k])
      requires first < |p| && SectionsLength(p[..first]) <= off <= end0 == SectionsLength(p[..first + 1])
      ensures i <= |p| && StreamOk(files, p[..i], off, pos, stream)
      ensures i == |p| || pos >= off + n
    {
      hide SectionsLength, Inside, StreamOk, SectionBytes, Bytes;
      var k: nat, end: nat := first, end0;
      var advance := p[k].length - (end - off);
      HalfSection(files, p, k, off, end, advance);
      stream := SectionBytes(files, Section(p[k].file, p[k].offset + advance, p[k].length - advance));
      k := k + 1;
      while k < |p|
        invariant 1 <= k <= |p|
        invariant StreamOk(files, p[..k], off, end, stream)
      {
        StreamSnoc(files, p, k, off, end, stream);
        stream := stream + SectionBytes(files, p[k]);
        end := end + p[k].length;
        k := k + 1;
        if end >= off + n { break; }
      }
      i, pos := k, end;
    }

    /** Piece.ReadAt: io.ReadFull of n bytes from the chain. */
    method ReadAt(p: seq<Section>, n: nat, off: nat) returns (r: ReadResult)
      requires forall k :: 0 <= k < |p| ==> Inside(Lengths(files), p[k])
      ensures |Bytes(files, p)| == SectionsLength(p)
      ensures r == if p == [] || off > SectionsLength(p) then OutOfRange
                   else if off + n <= SectionsLength(p) then Full(Bytes(files, p)[off..off + n])
                   else UnexpectedEOF
    {
      BytesLength(files, p);
      var first, end := SkipTo(p, off);
      if first == |p| { return OutOfRange; }
      ghost var i, pos;
      var stream;
      stream, i, pos := Chained(p, n, off, first, end);
      StreamPrefix(files, p, i, off, pos, stream, n);
      if n <= |stream| {
        r := Full(stream[..n]);
      } else {
        r := UnexpectedEOF;
      }
    }

    /** Piece.Write, with the whole piece in `b`. */
    method Write(p: seq<Section>, b: bytes, ghost a: nat)
      requires Tiles(Lengths(files), p, a, a + |b|) && a + |b| <= |Flat(files)|
      modifies this
      ensures Lengths(files) == Lengths(old(files))
      ensures Flat(files) == Splice(Flat(old(files)), a, b)
    {
      hide Written, Tiles, Flat;
      ghost var before := files;
      ghost var at := a;
      var rest := b;
      WrittenNone(before, p, a, b);
      for k := 0 to |p|
        invariant a <= at <= a + |b| && rest == b[at - a..]
        invariant Written(before, files, p[..k], a, at, b)
      {
        WrittenRoom(before, files, p, k, a, at, b);
        var sec := p[k];
        var m := rest[..sec.length];
        WrittenSnoc(before, files, p, k, a, at, b);
        files := files[sec.file := Splice(files[sec.file], sec.offset, m)];
        rest := rest[sec.length..];
        at := at + sec.length;
      }
      WrittenAll(before, files, p, a, at, b);
    }
  }

  /** Starting inside section i at the stream offset `off`. */
  lemma HalfSection(files: seq<bytes>, p: seq<Section>, i: nat, off: nat, pos: nat, advance: int)
    requires i < |p| && forall k :: 0 <= k < |p| ==> Inside(Lengths(files), p[k])
    requires SectionsLength(p[..i]) <= off <= pos == SectionsLength(p[..i + 1])
    requires advance == p[i].length - (pos - off)
    ensures 0 <= advance <= p[i].length
    ensures StreamOk(files, p[..i + 1], off, pos,
                     SectionBytes(files, Section(p[i].file, p[i].offset + advance, p[i].length - advance)))
  {
    LengthSnoc(p, i);
    BytesSnoc(files, p, i);
    BytesLength(files, p[..i]);
    HalfStream(files, Bytes(files, p[..i]), p[i], off);
  }

  lemma HalfStream(files: seq<bytes>, front: bytes, s: Section, off: nat)
    requires Inside(Lengths(files), s) && |front| <= off <= |front| + s.length
    ensures |SectionBytes(files, s)| == s.length
    ensures (front + SectionBytes(files, s))[off..]
            == SectionBytes(files, Section(s.file, s.offset + (off - |front|), s.length - (off - |front|)))
  {
    DropSection(files, s, off - |front|);
    DropConcat(front, SectionBytes(files, s), off);
  }

  lemma DropSection(files: seq<bytes>, s: Section, advance: nat)
    requires Inside(Lengths(files), s) && advance <= s.length
    ensures SectionBytes(files, s)[advance..]
              == SectionBytes(files, Section(s.file, s.offset + advance, s.length - advance))
  {
    SliceSlice(files[s.file], s.offset, s.offset + s.length, advance, s.length);
    assert SectionBytes(files, s)[advance..] == SectionBytes(files, s)[advance..s.length];
  }

  ghost predicate StreamOk(files: seq<bytes>, p: seq<Section>, off: nat, pos: nat, stream: bytes) {
    off <= pos == |Bytes(files, p)| && stream == Bytes(files, p)[off..]
  }

  lemma StreamSnoc(files: seq<bytes>, p: seq<Section>, i: nat, off: nat, pos: nat, stream: bytes)
    requires i < |p| && forall k :: 0 <= k < |p| ==> Inside(Lengths(files), p[k])
    requires StreamOk(files, p[..i], off, pos, stream)
    ensures StreamOk(files, p[..i + 1], off, pos + p[i].length, stream + SectionBytes(files, p[i]))
    ensures SectionsLength(p[..i + 1]) == SectionsLength(p[..i]) + p[i].length
  {
    LengthSnoc(p, i);
    BytesSnoc(files, p, i);
    DropConcatLeft(Bytes(files, p[..i]), SectionBytes(files, p[i]), off);
  }

  lemma StreamPrefix(files: seq<bytes>, p: seq<Section>, i: nat, off: nat, pos: nat, stream: bytes, n: nat)
    requires i <= |p| && forall k :: 0 <= k < |p| ==> Inside(Lengths(files), p[k])
    requires StreamOk(files, p[..i], off, pos, stream)
    ensures off + |stream| == pos <= |Bytes(files, p)|
    ensures n <= |stream| ==> stream[..n] == Bytes(files, p)[off..off + n]
    ensures i == |p| ==> pos == |Bytes(files, p)|
  {
    BytesPrefix(files, p, i);
    BytesLength(files, p[..i]);
    assert i == |p| ==> p[..i] == p;
    var all := Bytes(files, p);
    assert stream == all[..pos][off..] == all[off..pos];
    if n <= |stream| { SliceSlice(all, off, pos, 0, n); }
  }

  /** The first bytes of b, as many as the sections of p hold, are in place. */
  ghost predicate Written(before: seq<bytes>, files: seq<bytes>, p: seq<Section>, a: nat, at: nat, b: bytes) {
    && Lengths(files) == Lengths(before)
    && a <= at <= a + |b| && a + |b| <= |Flat(before)|
    && Tiles(Lengths(before), p, a, at)
    && Flat(files) == Splice(Flat(before), a, b[..at - a])
  }

  lemma WrittenNone(before: seq<bytes>, p: seq<Section>, a: nat, b: bytes)
    requires a + |b| <= |Flat(before)|
    ensures Written(before, before, p[..0], a, a, b) && b[0..] == b
  {
    assert b[..0] == [];
  }

  lemma WrittenRoom(before: seq<bytes>, files: seq<bytes>, p: seq<Section>, k: nat, a: nat, at: nat, b: bytes)
    requires k < |p| && Written(before, files, p[..k], a, at, b) && Tiles(Lengths(before), p, a, a + |b|)
    ensures Inside(Lengths(files), p[k]) && Pos(Lengths(files), p[k]) == at && at + p[k].length <= a + |b|
    ensures Lengths(files)[p[k].file] == |files[p[k].file]|
  {
    NextSection(Lengths(before), p, a, a + |b|, k, at);
  }

  lemma WrittenSnoc(before: seq<bytes>, files: seq<bytes>, p: seq<Section>, k: nat, a: nat, at: nat, b: bytes)
    requires k < |p| && Written(before, files, p[..k], a, at, b) && Tiles(Lengths(before), p, a, a + |b|)
    requires Inside(Lengths(files), p[k]) && Pos(Lengths(files), p[k]) == at && at + p[k].length <= a + |b|
    ensures var s := p[k];
            Written(before, files[s.file := Splice(files[s.file], s.offset, b[at - a..][..s.length])], p[..k + 1], a,
                at + s.length, b)
  {
    var s := p[k];
    var m := b[at - a..][..s.length];
    FlatUpdate(files, s.file, s.offset, m);
    assert p[..k + 1][..k] == p[..k];
    PrefixMore(b, at - a, s.length);
    SpliceTwice(Flat(before), a, b[..at - a], m);
    SameLengths(files, s.file, Splice(files[s.file], s.offset, m));
  }

  lemma PrefixMore(b: bytes, k: nat, n: nat)
    requires k + n <= |b|
    ensures b[..k] + b[k..][..n] == b[..k + n]
  {
  }

  lemma SameLengths(files: seq<bytes>, f: nat, data: bytes)
    requires f < |files| && |data| == |files[f]|
    ensures Lengths(files[f := data]) == Lengths(files)
  {
  }

  lemma SpliceTwice(f: bytes, a: nat, x: bytes, y: bytes)
    requires a + |x| + |y| <= |f|
    ensures Splice(Splice(f, a, x), a + |x|, y) == Splice(f, a, x + y)
  {
  }

  lemma WrittenAll(before: seq<bytes>, files: seq<bytes>, p: seq<Section>, a: nat, at: nat, b: bytes)
    requires Written(before, files, p[..|p|], a, at, b) && Tiles(Lengths(before), p, a, a + |b|)
    ensures Lengths(files) == Lengths(before)
    ensures Flat(files) == Splice(Flat(before), a, b)
  {
    assert p[..|p|] == p;
    TilesInside(Lengths(before), p, a, at);
    TilesInside(Lengths(before), p, a, a + |b|);
    assert b[..at - a] == b;
  }

  /** Section k of a tiling starts where the first k sections end. */
  lemma {:induction false} NextSection(lengths: seq<nat>, p: seq<Section>, a: nat, z: nat, k: nat, at: nat)
    requires Tiles(lengths, p, a, z) && k < |p| && Tiles(lengths, p[..k], a, at)
    ensures Inside(lengths, p[k]) && Pos(lengths, p[k]) == at && at + p[k].length <= z
    decreases |p|
  {
    var n := |p| - 1;
    var front := p[..n];
    TilesInside(lengths, front, a, z - p[n].length);
    if k < n {
      assert front[..k] == p[..k];
      NextSection(lengths, front, a, z - p[n].length, k, at);
    } else {
      assert p[..k] == front;
      TilesInside(lengths, p[..k], a, at);
    }
  }
}
