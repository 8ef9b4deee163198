/**
 * Reading lines out of blocks, io/lineinput.hpp.  A file is cut into blocks, each of which is given to
 * some reader; a reader may read past the end of its block.  Which reader returns a line that crosses
 * a boundary is settled without communication: the one whose block holds the newline before it.
 */
module LineInput {
  import opened Basics

  const NEWLINE := '\n'

  /** The block of a file at some offset; a block's bytes go on to the next multiple of the block size. */
  datatype Block = Block(file: string, offset: nat)

  ghost predicate ValidBlock(b: Block, size: nat) {
    b.offset < |b.file| && size > 0
  }

  function BlockEnd(b: Block, size: nat): nat
  {
    if b.offset + size <= |b.file| then b.offset + size else |b.file|
  }

  // ---------------------------------------------------------------- what a reader returns

  /** The first newline of f at or after q, or the end of f. */
  function End(f: string, q: nat): (z: nat)
    requires q <= |f|
    ensures q <= z <= |f|
    ensures z < |f| ==> f[z] == NEWLINE
    decreases |f| - q
  {
    if q == |f| || f[q] == NEWLINE then q else End(f, q + 1)
  }

  /** The first c in s at or after position from; -1 stands for npos. */
  function Position(s: string, from: nat, c: char): (at: int)
    requires from <= |s|
    ensures at == -1 || (from <= at < |s| && s[at] == c)
    decreases |s| - from
  {
    if from == |s| then -1 else if s[from] == c then from else Position(s, from + 1, c)
  }

  /** The line that starts at q, without its newline. */
  function Line(f: string, q: nat): string
    requires q <= |f|
  {
    f[q..End(f, q)]
  }

  /** The records of a block that ends at e, from a line start q on; the flag is that of RecordsAfter. */
  function RecordsFrom(f: string, e: nat, q: nat): (seq<string>, bool)
    requires q <= e <= |f|
    decreases 2 * (e - q) + 1
  {
    var z := End(f, q);
    if z < e then
      var (more, flush) := RecordsAfter(f, e, z);
      ([Line(f, q)] + more, flush)
    else
      ([Line(f, q)], false)
  }

  /**
   * The records of a block that ends at e, after the newline at p.  The flag says that the reader found
   * the end of the file right behind the block's last newline, and takes up its next block in the same call.
   */
  function RecordsAfter(f: string, e: nat, p: nat): (seq<string>, bool)
    requires p < e <= |f|
    decreases 2 * (e - p)
  {
    if p + 1 == e == |f| then ([], true) else RecordsFrom(f, e, p + 1)
  }

  /** Where the first record of a block starts when the reader does look at its bytes. */
  function FirstStart(b: Block, size: nat): (q: nat)
    requires ValidBlock(b, size)
    ensures q <= BlockEnd(b, size)
  {
    var e := BlockEnd(b, size);
    if b.offset == 0 then
      if b.file[0] == NEWLINE then 1 else 0
    else if End(b.file, b.offset) < e then
      End(b.file, b.offset) + 1
    else
      b.offset
  }

  /**
   * All records of a block.  A reader that starts a call with it (atStart) takes a block of a single byte
   * to be already at its last character; a reader that got to it within a call does not.
   */
  function BlockRecords(b: Block, size: nat, atStart: bool): (seq<string>, bool)
    requires ValidBlock(b, size)
  {
    var e := BlockEnd(b, size);
    if atStart && e == b.offset + 1 then
      RecordsAfter(b.file, e, b.offset)
    else
      RecordsFrom(b.file, e, FirstStart(b, size))
  }

  ghost predicate ValidBlocks(bs: seq<Block>, size: nat) {
    forall i :: 0 <= i < |bs| ==> ValidBlock(bs[i], size)
  }

  /** All records of a reader that is given these blocks. */
  function ReaderRecords(bs: seq<Block>, size: nat, atStart: bool): seq<string>
    requires ValidBlocks(bs, size)
  {
    if bs == [] then []
    else
      var (records, flush) := BlockRecords(bs[0], size, atStart);
      records + ReaderRecords(bs[1..], size, !flush)
  }

  lemma ReaderStep(bs: seq<Block>, size: nat, atStart: bool)
    requires ValidBlocks(bs, size)
    ensures bs == [] ==> ReaderRecords(bs, size, atStart) == []
    ensures bs != [] ==>
              var (records, flush) := BlockRecords(bs[0], size, atStart);
              ReaderRecords(bs, size, atStart) == records + ReaderRecords(bs[1..], size, !flush)
  {
  }

  // ---------------------------------------------------------------- the reader

  /** The splitter: the blocks its coordinator will hand out to it, and the file it reads at the moment. */
  class Splitter {
    const size: nat
    var upcoming: seq<Block>
    var current: Block
    var pos: nat

    ghost predicate Valid()
      reads this
    {
      ValidBlocks(upcoming, size) && pos <= |current.file|
    }

    constructor (size: nat, upcoming: seq<Block>)
      requires ValidBlocks(upcoming, size)
      ensures Valid() && this.size == size && this.upcoming == upcoming
    {
      this.size, this.upcoming, current, pos := size, upcoming, Block("", 0), 0;
    }

    /** fetch_block(false): the next block upcoming, or nothing. */
    method FetchBlock() returns (data: string)
      requires Valid()
      modifies this
      ensures Valid()
      ensures old(upcoming) == [] ==> data == "" && upcoming == []
      ensures old(upcoming) != [] ==>
                && current == old(upcoming)[0] && upcoming == old(upcoming)[1..]
                && pos == BlockEnd(current, size)
                && data == current.file[current.offset..pos] != ""
    {
      if upcoming == [] {
        current, pos := Block("", 0), 0;
        return "";
      }
      current, upcoming := upcoming[0], upcoming[1..];
      pos := BlockEnd(current, size);
      data := current.file[current.offset..pos];
    }

    /** fetch_block(true): some of the bytes that follow, or nothing at the end of the file. */
    method FetchNext() returns (data: string)
      requires Valid()
      modifies this`pos
      ensures Valid()
      ensures old(pos) <= pos && data == current.file[old(pos)..pos]
      ensures data == "" <==> old(pos) == |current.file|
    {
      if pos == |current.file| {
        return "";
      }
      var end: nat :| pos < end <= |current.file|;
      data := current.file[pos..end];
      pos := end;
    }
  }

  class LineInputFormat {
    const splitter: Splitter
    var l: int
    var r: int
    var lastPart: string
    var buffer: string

    /** Between calls the buffer is empty, or it is a block and r the newline the last record ended at. */
    ghost predicate Valid()
      reads this, splitter
    {
      && splitter.Valid()
      && (buffer != "" ==>
            && ValidBlock(splitter.current, splitter.size)
            && splitter.pos == BlockEnd(splitter.current, splitter.size)
            && buffer == Bytes(splitter.current, splitter.size)
            && 0 < r < |buffer| && buffer[r] == NEWLINE)
    }

    /** The records this reader is still to return, if its coordinator has no more blocks for it. */
    ghost function Remaining(): seq<string>
      requires Valid()
      reads this, splitter
    {
      if buffer == "" then
        ReaderRecords(splitter.upcoming, splitter.size, true)
      else
        var b := splitter.current;
        var (records, flush) := RecordsAfter(b.file, splitter.pos, b.offset + r);
        records + ReaderRecords(splitter.upcoming, splitter.size, !flush)
    }

    constructor (size: nat, upcoming: seq<Block>)
      requires ValidBlocks(upcoming, size)
      ensures fresh(splitter)
      ensures Valid() && Remaining() == ReaderRecords(upcoming, size, true)
    {
      splitter := new Splitter(size, upcoming);
      l, r, lastPart, buffer := 0, 0, "", "";
    }

    static method FindNext(s: string, from: int, c: char) returns (at: int)
      requires 0 <= from <= |s|
      ensures at == Position(s, from, c)
    {
      at := from;
      while at != |s| && s[at] != c
        invariant from <= at <= |s|
        invariant Position(s, at, c) == Position(s, from, c)
      {
        at := at + 1;
      }
      if at == |s| {
        at := -1;
      }
    }

    /** A new block into the buffer; ok is false when there is none. */
    method FetchNewBlock() returns (ok: bool)
      requires splitter.Valid()
      modifies this, splitter
      ensures splitter.Valid()
      ensures ok <==> old(splitter.upcoming) != []
      ensures !ok ==> buffer == "" && splitter.upcoming == []
      ensures ok ==>
                && splitter.current == old(splitter.upcoming)[0]
                && splitter.upcoming == old(splitter.upcoming)[1..]
                && splitter.pos == BlockEnd(splitter.current, splitter.size)
                && buffer == splitter.current.file[splitter.current.offset..splitter.pos] != ""
                && l == r == 0
    {
      buffer := splitter.FetchBlock();
      if buffer == "" {
        return false;
      }
      l, r := 0, 0;
      return true;
    }

    /** Reads on to the next newline, or to the end of the file, adding to last_part_. */
    method HandleNextBlock()
      requires splitter.Valid() && |buffer| <= splitter.pos
      requires buffer == splitter.current.file[splitter.pos - |buffer|..splitter.pos]
      requires buffer == "" ==> splitter.pos == |splitter.current.file|
      modifies this, splitter`pos
      ensures splitter.Valid() && buffer == ""
      ensures lastPart == old(lastPart) + Line(splitter.current.file, old(splitter.pos - |buffer|))
    {
      ghost var f, q, part := splitter.current.file, splitter.pos - |buffer|, lastPart;
      PartStarts(f, splitter.pos, buffer, lastPart);
      while true
        invariant splitter.Valid() && splitter.current == old(splitter.current)
        invariant PartRead(f, splitter.pos, buffer, lastPart, part, q)
        decreases |f| - splitter.pos, |buffer|
      {
        if buffer == "" {
          PartAtEnd(f, splitter.pos, lastPart, part, q);
          return;
        }
        var done := ReadPart(part, q);
        if done {
          return;
        }
      }
    }

    /** One round of the loop: to the newline in the buffer, or past the whole buffer. */
    method ReadPart(ghost part: string, ghost q: nat) returns (done: bool)
      requires splitter.Valid() && buffer != ""
      requires PartRead(splitter.current.file, splitter.pos, buffer, lastPart, part, q)
      modifies this, splitter`pos
      ensures splitter.Valid()
      ensures done ==> buffer == "" && lastPart == part + Line(splitter.current.file, q)
      ensures !done ==> PartRead(splitter.current.file, splitter.pos, buffer, lastPart, part, q)
      ensures !done ==> splitter.pos > old(splitter.pos) || (splitter.pos == old(splitter.pos) && buffer == "")
    {
      ghost var f, pos := splitter.current.file, splitter.pos;
      r := FindNext(buffer, 0, NEWLINE);
      InBlock(f, pos - |buffer|, pos, 0);
      done := r != -1;
      if r == -1 {
        PartGrows(f, pos, buffer, lastPart, part, q);
        lastPart := lastPart + buffer;
        buffer := splitter.FetchNext();
        PartResumes(f, pos, splitter.pos, lastPart, part, q);
      } else {
        PartEnds(f, pos, buffer, lastPart, part, q, r);
        lastPart := lastPart + buffer[..r];
        ClearBuffer();
      }
    }

    method ClearBuffer()
      modifies this`buffer, this`l, this`r
      ensures buffer == "" && l == r == 0
    {
      buffer := "";
      l, r := 0, 0;
    }

    /** The next record; ok is false when there is none. */
    method Next() returns (ok: bool, ref: string)
      requires Valid()
      modifies this, splitter
      ensures Valid()
      ensures ok ==> old(Remaining()) == [ref] + Remaining()
      ensures !ok ==> old(Remaining()) == [] && Remaining() == []
    {
      ghost var all, todo := Remaining(), ([], false);
      ref := "";
      ok, todo := Load();
      if !ok {
        return;
      }
      if r == |buffer| - 1 {
        var line;
        line, ok, ref, todo := PassLastCharacter(all, todo);
        if line || !ok {
          return;
        }
      }
      FindRecord(todo);
      ref := TakeRecord(todo);
    }

    /** What is left to return: these records, and those of the blocks to come. */
    ghost predicate IsToReturn(all: seq<string>, todo: (seq<string>, bool))
      requires splitter.Valid()
      reads splitter
    {
      all == todo.0 + ReaderRecords(splitter.upcoming, splitter.size, !todo.1)
    }

    /** The first part of Next(): a block into an empty buffer. */
    method Load() returns (ok: bool, ghost todo: (seq<string>, bool))
      requires Valid()
      modifies this, splitter
      ensures !ok ==> Valid() && old(Remaining()) == [] && Remaining() == []
      ensures ok ==> Loaded() && 0 <= r < |buffer| && IsToReturn(old(Remaining()), todo)
      ensures ok ==> if r == 0 then todo == BlockRecords(splitter.current, splitter.size, true)
                     else buffer[r] == NEWLINE
                          && todo == RecordsAfter(splitter.current.file, splitter.pos, splitter.current.offset + r)
    {
      hide ReaderRecords, RecordsAfter, BlockRecords;
      if buffer == "" {
        ReaderStep(splitter.upcoming, splitter.size, true);
        ok := FetchNewBlock();
        todo := if ok then BlockRecords(splitter.current, splitter.size, true) else ([], false);
      } else {
        todo := RecordsAfter(splitter.current.file, splitter.pos, splitter.current.offset + r);
        ok := true;
      }
    }

    /**
     * The second part of Next(), for a record that ended at the last character of its block: the line
     * that starts right behind the block (line), or a new block at the end of the file, or nothing.
     */
    method PassLastCharacter(ghost all: seq<string>, ghost todo: (seq<string>, bool))
      returns (line: bool, ok: bool, ref: string, ghost todo': (seq<string>, bool))
      requires Loaded() && r == |buffer| - 1
      requires todo == RecordsAfter(splitter.current.file, splitter.pos, splitter.pos - 1) && IsToReturn(all, todo)
      modifies this, splitter
      ensures line ==> ok && Valid() && all == [ref] + Remaining()
      ensures !line && !ok ==> Valid() && Remaining() == [] && all == []
      ensures !line && ok ==> Loaded() && r == 0 && IsToReturn(all, todo')
      ensures !line && ok ==> todo' == BlockRecords(splitter.current, splitter.size, false)
    {
      ghost var f, e := splitter.current.file, splitter.pos;
      ref, line, ok, todo' := "", false, true, todo;
      buffer := splitter.FetchNext();
      if buffer == "" {
        assert todo == ([], true);
        ok := FetchNewBlock();
        if ok {
          todo' := BlockRecords(splitter.current, splitter.size, false);
        }
      } else {
        assert todo == RecordsFrom(f, e, e) == ([Line(f, e)], false);
        lastPart := "";
        HandleNextBlock();
        ref, line := lastPart, true;
        assert ref == Line(f, e);
      }
    }

    /** The buffer holds the current block. */
    ghost predicate Loaded()
      reads this, splitter
    {
      && splitter.Valid() && buffer != ""
      && ValidBlock(splitter.current, splitter.size) && splitter.pos == BlockEnd(splitter.current, splitter.size)
      && buffer == Bytes(splitter.current, splitter.size)
    }

    /** The part of Next() that looks for both ends of the next record in the buffer. */
    method FindRecord(ghost todo: (seq<string>, bool))
      requires Loaded() && 0 <= r < |buffer| && IsNext(splitter.current, splitter.size, r, todo)
      modifies this`l, this`r
      ensures Loaded() && IsFound(splitter.current, splitter.size, l, r, todo)
    {
      ghost var start := r;
      if splitter.current.offset == 0 && r == 0 {
        l := 0;
        if buffer[0] == NEWLINE {
          l := 1;
        }
      } else {
        var z := FindNext(buffer, r, NEWLINE);
        l := z + 1;
      }
      LeftEnd(splitter.current, splitter.size, start, l, todo);
      r := FindNext(buffer, l, NEWLINE);
      RightEnd(splitter.current, splitter.size, l, r, todo);
    }

    /** The part of Next() that returns the record found, reading on when it does not end in this block. */
    method TakeRecord(ghost todo: (seq<string>, bool)) returns (ref: string)
      requires Loaded() && IsFound(splitter.current, splitter.size, l, r, todo)
      modifies this, splitter`pos
      ensures Valid()
      ensures todo.0 + ReaderRecords(splitter.upcoming, splitter.size, !todo.1) == [ref] + Remaining()
    {
      ghost var b, rest := splitter.current, ReaderRecords(splitter.upcoming, splitter.size, !todo.1);
      if r == -1 {
        CrossingRecord(b, splitter.size, l, todo);
        lastPart := buffer[l..];
        buffer := splitter.FetchNext();
        HandleNextBlock();
        ref := lastPart;
      } else {
        InnerRecord(b, splitter.size, l, r, todo);
        ref := buffer[l..r];
        Regroup([ref], RecordsAfter(b.file, BlockEnd(b, splitter.size), b.offset + r).0, rest);
      }
    }
  }

  /** The bytes of a block. */
  function Bytes(b: Block, size: nat): string
    requires ValidBlock(b, size)
  {
    b.file[b.offset..BlockEnd(b, size)]
  }

  /** What a block is still to yield when the reader is at r: its start, or a newline that is not its last character. */
  ghost predicate IsNext(b: Block, size: nat, r: int, todo: (seq<string>, bool))
    requires ValidBlock(b, size) && 0 <= r < |Bytes(b, size)|
  {
    if r == 0 then todo == RecordsFrom(b.file, BlockEnd(b, size), FirstStart(b, size))
    else
      && Bytes(b, size)[r] == NEWLINE && r != |Bytes(b, size)| - 1
      && todo == RecordsAfter(b.file, BlockEnd(b, size), b.offset + r)
  }

  /** The next record starts at l; it ends at r, or behind the block when r is npos. */
  ghost predicate IsFound(b: Block, size: nat, l: int, r: int, todo: (seq<string>, bool))
    requires ValidBlock(b, size)
  {
    && 0 <= l <= |Bytes(b, size)|
    && todo == RecordsFrom(b.file, BlockEnd(b, size), b.offset + l)
    && (r == -1 || (l <= r < |Bytes(b, size)| && r > 0))
    && if r == -1 then End(b.file, b.offset + l) >= BlockEnd(b, size) else End(b.file, b.offset + l) == b.offset + r
  }

  lemma LeftEnd(b: Block, size: nat, r: int, l: int, todo: (seq<string>, bool))
    requires ValidBlock(b, size) && 0 <= r < |Bytes(b, size)| && IsNext(b, size, r, todo)
    requires l == if b.offset == 0 && r == 0 then if Bytes(b, size)[0] == NEWLINE then 1 else 0
                  else Position(Bytes(b, size), r, NEWLINE) + 1
    ensures 0 <= l <= |Bytes(b, size)|
    ensures todo == RecordsFrom(b.file, BlockEnd(b, size), b.offset + l)
    ensures l == 0 ==> Position(Bytes(b, size), 0, NEWLINE) != 0
  {
    assert b.file[b.offset + r] == Bytes(b, size)[r];
    InBlock(b.file, b.offset, BlockEnd(b, size), r);
  }

  lemma RightEnd(b: Block, size: nat, l: int, r: int, todo: (seq<string>, bool))
    requires ValidBlock(b, size) && 0 <= l <= |Bytes(b, size)| && r == Position(Bytes(b, size), l, NEWLINE)
    requires todo == RecordsFrom(b.file, BlockEnd(b, size), b.offset + l) && (l == 0 ==> r != 0)
    ensures IsFound(b, size, l, r, todo)
  {
    InBlock(b.file, b.offset, BlockEnd(b, size), l);
  }

  lemma CrossingRecord(b: Block, size: nat, l: int, todo: (seq<string>, bool))
    requires ValidBlock(b, size) && IsFound(b, size, l, -1, todo)
    ensures todo == ([Bytes(b, size)[l..] + Line(b.file, BlockEnd(b, size))], false)
  {
    var e := BlockEnd(b, size);
    LineOn(b.file, b.offset + l, e);
    PieceOfPiece(b.file, b.offset, e, l, e - b.offset);
    assert Bytes(b, size)[l..] == Bytes(b, size)[l..e - b.offset];
  }

  lemma InnerRecord(b: Block, size: nat, l: int, r: int, todo: (seq<string>, bool))
    requires ValidBlock(b, size) && r != -1 && IsFound(b, size, l, r, todo)
    ensures Bytes(b, size)[r] == NEWLINE
    ensures todo.0 == [Bytes(b, size)[l..r]] + RecordsAfter(b.file, BlockEnd(b, size), b.offset + r).0
    ensures todo.1 == RecordsAfter(b.file, BlockEnd(b, size), b.offset + r).1
  {
    var e := BlockEnd(b, size);
    assert b.file[b.offset + r] == Bytes(b, size)[r];
    PieceOfPiece(b.file, b.offset, e, l, r);
  }

  lemma PieceOfPiece(f: string, o: nat, e: nat, l: nat, r: nat)
    requires o <= e <= |f| && l <= r <= e - o
    ensures f[o..e][l..r] == f[o + l..o + r]
  {
    var inner, outer := f[o..e][l..r], f[o + l..o + r];
    assert |inner| == |outer|;
    forall i | 0 <= i < |inner| ensures inner[i] == outer[i] {
      assert inner[i] == f[o..e][l + i] == f[o + (l + i)];
    }
    assert inner == outer;
  }

  /** last_part_ is part and the bytes from q up to where the buffer starts, and the line goes on there. */
  ghost predicate PartRead(f: string, pos: nat, buffer: string, lastPart: string, part: string, q: nat) {
    && |buffer| <= pos <= |f|
    && PartUpTo(f, pos - |buffer|, lastPart, part, q)
    && buffer == f[pos - |buffer|..pos]
    && (buffer == "" ==> pos == |f|)
  }

  ghost predicate PartUpTo(f: string, at: nat, lastPart: string, part: string, q: nat)
    requires at <= |f|
  {
    q <= at && End(f, q) == End(f, at) && lastPart == part + f[q..at]
  }

  lemma PartStarts(f: string, pos: nat, buffer: string, part: string)
    requires |buffer| <= pos <= |f| && buffer == f[pos - |buffer|..pos] && (buffer == "" ==> pos == |f|)
    ensures PartRead(f, pos, buffer, part, part, pos - |buffer|)
  {
    var at := pos - |buffer|;
    assert f[at..at] == "";
  }

  lemma PartAtEnd(f: string, pos: nat, lastPart: string, part: string, q: nat)
    requires PartRead(f, pos, "", lastPart, part, q)
    ensures q <= |f| && lastPart == part + Line(f, q)
  {
  }

  lemma PartGrows(f: string, pos: nat, buffer: string, lastPart: string, part: string, q: nat)
    requires PartRead(f, pos, buffer, lastPart, part, q) && End(f, pos - |buffer|) >= pos
    ensures PartUpTo(f, pos, lastPart + buffer, part, q)
  {
    var at := pos - |buffer|;
    Extend(f, q, at, pos);
    Regroup(part, f[q..at], f[at..pos]);
  }

  lemma PartResumes(f: string, pos: nat, pos': nat, lastPart: string, part: string, q: nat)
    requires pos <= pos' <= |f| && PartUpTo(f, pos, lastPart, part, q) && (pos == pos' ==> pos == |f|)
    ensures PartRead(f, pos', f[pos..pos'], lastPart, part, q)
  {
  }

  lemma PartEnds(f: string, pos: nat, buffer: string, lastPart: string, part: string, q: nat, r: nat)
    requires PartRead(f, pos, buffer, lastPart, part, q) && r < |buffer| && End(f, pos - |buffer|) == pos - |buffer| + r
    ensures lastPart + buffer[..r] == part + Line(f, q)
  {
    var at := pos - |buffer|;
    Extend(f, q, at, at + r);
    assert buffer[..r] == f[at..at + r];
    Regroup(part, f[q..at], f[at..at + r]);
  }

  lemma {:induction false} EndBeyond(f: string, q: nat, e: nat)
    requires q <= e <= |f| && e <= End(f, q)
    ensures End(f, q) == End(f, e)
    decreases e - q
  {
    if q == e {
    } else {
      EndBeyond(f, q + 1, e);
    }
  }

  /** A line part, and the bytes after it. */
  lemma Extend(f: string, q: nat, at: nat, to: nat)
    requires q <= at <= to <= |f| && End(f, q) == End(f, at) && to <= End(f, at)
    ensures End(f, q) == End(f, to)
    ensures f[q..at] + f[at..to] == f[q..to]
  {
    EndBeyond(f, at, to);
  }

  /** Searching a block's bytes for a newline is searching the file's. */
  lemma {:induction false} InBlock(f: string, o: nat, e: nat, from: nat)
    requires o + from <= e <= |f|
    ensures Position(f[o..e], from, NEWLINE) == if End(f, o + from) < e then End(f, o + from) - o else -1
    decreases e - from
  {
    if o + from == e {
    } else {
      assert f[o..e][from] == f[o + from];
      if f[o + from] != NEWLINE {
        InBlock(f, o, e, from + 1);
      }
    }
  }

  /** A line that does not end before e consists of its bytes up to e and the line from e on. */
  lemma LineOn(f: string, q: nat, e: nat)
    requires q <= e <= |f| && End(f, q) >= e
    ensures End(f, e) == End(f, q)
    ensures Line(f, q) == f[q..e] + Line(f, e)
  {
    hide End;
    EndBeyond(f, q, e);
    Joined(f, q, e, End(f, q));
  }
}
