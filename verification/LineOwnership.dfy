/**
 * Whose line is it: the records that all readers of all blocks return are the files' lines, each once,
 * exactly when every block but a file's first contains a newline.
 */
module LineOwnership {
  import opened Basics
  import opened LineInput

  // ---------------------------------------------------------------- whose line it is

  function NonBlank(record: string): seq<string>
  {
    if record == "" then [] else [record]
  }

  function NonEmpty(records: seq<string>): seq<string>
  {
    if records == [] then []
    else NonBlank(records[0]) + NonEmpty(records[1..])
  }

  lemma NonEmptyOne(record: string)
    ensures NonEmpty([record]) == NonBlank(record)
  {
    assert [record][1..] == [];
    assert NonBlank(record) + [] == NonBlank(record);
  }

  lemma {:induction false} NonEmptyConcat(a: seq<string>, b: seq<string>)
    ensures NonEmpty(a + b) == NonEmpty(a) + NonEmpty(b)
  {
    if a == [] {
      assert a + b == b;
    } else {
      NonEmptyConcat(a[1..], b);
      assert (a + b)[1..] == a[1..] + b && (a + b)[0] == a[0];
      Regroup(NonBlank(a[0]), NonEmpty(a[1..]), NonEmpty(b));
    }
  }

  /** The non-empty lines of f that start at q, or right behind a newline at q or later but before e. */
  function LinesFrom(f: string, q: nat, e: nat): seq<string>
    requires q <= |f| && e <= |f|
    decreases |f| - q
  {
    var z := End(f, q);
    NonBlank(Line(f, q)) + if z < e then LinesFrom(f, z + 1, e) else []
  }

  /** The non-empty lines of a file: its maximal pieces without a newline. */
  function FileLines(f: string): seq<string>
  {
    LinesFrom(f, 0, |f|)
  }

  /**
   * The non-empty lines that belong to a block: for the first one those that start at 0 or behind one of its
   * newlines.
   */
  function OwnLines(b: Block, size: nat): seq<string>
    requires ValidBlock(b, size)
  {
    var e := BlockEnd(b, size);
    if b.offset == 0 then LinesFrom(b.file, 0, e) else LinesBetween(b.file, b.offset, e)
  }

  /** What the reader relies on: two bytes in a first block, and a newline in every other one. */
  predicate Readable(b: Block, size: nat)
    requires ValidBlock(b, size)
  {
    var e := BlockEnd(b, size);
    if b.offset == 0 then e >= 2 else End(b.file, b.offset) < e
  }

  lemma NoLineAtEnd(f: string)
    ensures LinesFrom(f, |f|, |f|) == []
  {
    assert Line(f, |f|) == "";
  }

  /**
   * The non-empty records from a line start on are the non-empty lines that start there and in the rest of the
   * block.
   */
  lemma {:induction false} RecordsAreLines(f: string, e: nat, q: nat)
    requires q <= e <= |f|
    ensures NonEmpty(RecordsFrom(f, e, q).0) == LinesFrom(f, q, e)
    decreases e - q
  {
    hide Line, NonBlank, End;
    var z := End(f, q);
    NonEmptyOne(Line(f, q));
    if z >= e {
    } else {
      var more := RecordsAfter(f, e, z).0;
      NonEmptyConcat([Line(f, q)], more);
      if z + 1 == e == |f| {
        NoLineAtEnd(f);
      } else {
        RecordsAreLines(f, e, z + 1);
      }
    }
  }

  lemma AfterNewline(f: string, e: nat, p: nat)
    requires p < e <= |f|
    ensures NonEmpty(RecordsAfter(f, e, p).0) == LinesFrom(f, p + 1, e)
  {
    if p + 1 == e == |f| {
      NoLineAtEnd(f);
    } else {
      RecordsAreLines(f, e, p + 1);
    }
  }

  /** A leading newline is an empty first line. */
  lemma LeadingNewline(f: string, e: nat)
    requires 0 < e <= |f| && f[0] == NEWLINE
    ensures LinesFrom(f, 0, e) == LinesFrom(f, 1, e)
  {
    assert End(f, 0) == 0 && Line(f, 0) == "";
    assert [] + LinesFrom(f, 1, e) == LinesFrom(f, 1, e);
  }

  lemma LaterRecords(b: Block, size: nat)
    requires ValidBlock(b, size) && b.offset > 0 && Readable(b, size)
    ensures NonEmpty(RecordsFrom(b.file, BlockEnd(b, size), FirstStart(b, size)).0) == OwnLines(b, size)
  {
    RecordsAreLines(b.file, BlockEnd(b, size), FirstStart(b, size));
  }

  lemma FirstRecords(b: Block, size: nat)
    requires ValidBlock(b, size) && b.offset == 0
    ensures NonEmpty(RecordsFrom(b.file, BlockEnd(b, size), FirstStart(b, size)).0) == OwnLines(b, size)
  {
    RecordsAreLines(b.file, BlockEnd(b, size), FirstStart(b, size));
    if b.file[0] == NEWLINE {
      LeadingNewline(b.file, BlockEnd(b, size));
    }
  }

  /** A later block of a single byte is a newline. */
  lemma SingleNewline(b: Block, size: nat)
    requires ValidBlock(b, size) && b.offset > 0 && Readable(b, size) && BlockEnd(b, size) == b.offset + 1
    ensures End(b.file, b.offset) == b.offset
    ensures OwnLines(b, size) == LinesFrom(b.file, b.offset + 1, BlockEnd(b, size))
  {
    hide LinesFrom;
  }

  /** A readable block yields its own lines, and no others, whichever way the reader comes to it. */
  lemma ReadableBlock(b: Block, size: nat, atStart: bool)
    requires ValidBlock(b, size) && Readable(b, size)
    ensures NonEmpty(BlockRecords(b, size, atStart).0) == OwnLines(b, size)
  {
    hide NonEmpty, RecordsFrom, LinesFrom, OwnLines;
    var e := BlockEnd(b, size);
    if atStart && e == b.offset + 1 {
      SingleNewline(b, size);
      AfterNewline(b.file, e, b.offset);
    } else if b.offset == 0 {
      FirstRecords(b, size);
    } else {
      LaterRecords(b, size);
    }
  }

  /** A later block of two bytes or more without a newline yields one non-empty record that is no line of its own. */
  lemma UnreadableBlock(b: Block, size: nat, atStart: bool)
    requires ValidBlock(b, size) && b.offset > 0 && BlockEnd(b, size) >= b.offset + 2 && !Readable(b, size)
    ensures OwnLines(b, size) == []
    ensures |NonEmpty(BlockRecords(b, size, atStart).0)| == 1
  {
    assert Line(b.file, b.offset) != "";
    assert BlockRecords(b, size, atStart).0 == [Line(b.file, b.offset)];
    NonEmptyOne(Line(b.file, b.offset));
  }

  // ---------------------------------------------------------------- all blocks, all readers

  /** The blocks of a file from an offset on, as the assigner lists them. */
  function BlocksFrom(f: string, size: nat, o: nat): (bs: seq<Block>)
    requires size > 0
    ensures ValidBlocks(bs, size)
    decreases |f| - o
  {
    if o >= |f| then [] else [Block(f, o)] + BlocksFrom(f, size, o + size)
  }

  function Listing(files: seq<string>, size: nat): (bs: seq<Block>)
    requires size > 0
    ensures ValidBlocks(bs, size)
  {
    if files == [] then [] else BlocksFrom(files[0], size, 0) + Listing(files[1..], size)
  }

  function AllLines(files: seq<string>): seq<string>
  {
    if files == [] then [] else FileLines(files[0]) + AllLines(files[1..])
  }

  function OwnAll(bs: seq<Block>, size: nat): seq<string>
    requires ValidBlocks(bs, size)
  {
    if bs == [] then [] else OwnLines(bs[0], size) + OwnAll(bs[1..], size)
  }

  lemma OwnAllCons(b: Block, bs: seq<Block>, size: nat)
    requires ValidBlock(b, size) && ValidBlocks(bs, size)
    ensures ValidBlocks([b] + bs, size)
    ensures OwnAll([b] + bs, size) == OwnLines(b, size) + OwnAll(bs, size)
  {
    assert ([b] + bs)[1..] == bs;
  }

  lemma {:induction false} OwnAllConcat(a: seq<Block>, b: seq<Block>, size: nat)
    requires ValidBlocks(a, size) && ValidBlocks(b, size)
    ensures ValidBlocks(a + b, size)
    ensures OwnAll(a + b, size) == OwnAll(a, size) + OwnAll(b, size)
    decreases |a|
  {
    if a == [] {
      assert a + b == b;
    } else {
      var head, rest := a[0], a[1..];
      assert a == [head] + rest && a + b == [head] + (rest + b);
      OwnAllConcat(rest, b, size);
      OwnAllCons(head, rest, size);
      OwnAllCons(head, rest + b, size);
      Regroup(OwnLines(head, size), OwnAll(rest, size), OwnAll(b, size));
    }
  }

  /** The lines of f that start behind a newline at o or later, but before e. */
  function LinesBetween(f: string, o: nat, e: nat): seq<string>
    requires o <= |f| && e <= |f|
  {
    if End(f, o) < e then LinesFrom(f, End(f, o) + 1, e) else []
  }

  /** The lines of f that start behind a newline at e or later. */
  function LinesBehind(f: string, e: nat): seq<string>
    requires e <= |f|
  {
    LinesBetween(f, e, |f|)
  }

  lemma {:induction false} LinesSplit(f: string, q: nat, e: nat)
    requires q <= e <= |f|
    ensures LinesFrom(f, q, e) + LinesBehind(f, e) == LinesFrom(f, q, |f|)
    decreases e - q
  {
    hide Line, NonBlank, End;
    var z := End(f, q);
    if z < e {
      LinesSplit(f, z + 1, e);
      Regroup(NonBlank(Line(f, q)), LinesFrom(f, z + 1, e), LinesBehind(f, e));
    } else {
      EndBeyond(f, q, e);
      Regroup(NonBlank(Line(f, q)), [], LinesBehind(f, e));
    }
  }

  lemma LinesBetweenSplit(f: string, o: nat, e: nat)
    requires o <= e <= |f|
    ensures LinesBetween(f, o, e) + LinesBetween(f, e, |f|) == LinesBetween(f, o, |f|)
  {
    hide LinesFrom, End;
    if End(f, o) < e {
      LinesSplit(f, End(f, o) + 1, e);
    } else {
      EndBeyond(f, o, e);
      assert [] + LinesBetween(f, e, |f|) == LinesBetween(f, e, |f|);
    }
  }

  /** The lines behind a block's start are its own and those behind its end. */
  lemma OneLaterBlock(f: string, size: nat, o: nat)
    requires size > 0 && 0 < o < |f|
    ensures OwnLines(Block(f, o), size) + LinesBehind(f, BlockEnd(Block(f, o), size)) == LinesBehind(f, o)
  {
    LinesBetweenSplit(f, o, BlockEnd(Block(f, o), size));
  }

  lemma OwnAllStep(f: string, size: nat, o: nat)
    requires size > 0 && o < |f|
    ensures OwnAll(BlocksFrom(f, size, o), size) ==
              OwnLines(Block(f, o), size) + OwnAll(BlocksFrom(f, size, o + size), size)
  {
    OwnAllCons(Block(f, o), BlocksFrom(f, size, o + size), size);
  }

  function Capped(f: string, o: nat): nat {
    if o < |f| then o else |f|
  }

  lemma NoLaterBlocks(f: string, size: nat, o: nat)
    requires size > 0 && o >= |f|
    ensures OwnAll(BlocksFrom(f, size, o), size) == LinesBehind(f, Capped(f, o))
  {
  }

  lemma {:induction false} LaterBlocks(f: string, size: nat, o: nat)
    requires size > 0 && 0 < o
    ensures OwnAll(BlocksFrom(f, size, o), size) == LinesBehind(f, Capped(f, o))
    decreases |f| - o
  {
    hide OwnAll, OwnLines, LinesBehind, BlocksFrom;
    if o < |f| {
      OneLaterBlock(f, size, o);
      LaterBlocks(f, size, o + size);
      OwnAllStep(f, size, o);
      assert BlockEnd(Block(f, o), size) == Capped(f, o + size);
    } else {
      NoLaterBlocks(f, size, o);
    }
  }

  /** The lines the blocks of a file own, one after the other, are the lines of the file. */
  lemma BlocksOwnAllLines(f: string, size: nat)
    requires size > 0
    ensures OwnAll(BlocksFrom(f, size, 0), size) == FileLines(f)
  {
    if f == "" {
      NoLineAtEnd(f);
    } else {
      LaterBlocks(f, size, size);
      OwnAllStep(f, size, 0);
      LinesSplit(f, 0, BlockEnd(Block(f, 0), size));
    }
  }

  lemma {:induction false} ListingOwnsAllLines(files: seq<string>, size: nat)
    requires size > 0
    ensures OwnAll(Listing(files, size), size) == AllLines(files)
  {
    if files == [] {
    } else {
      BlocksOwnAllLines(files[0], size);
      ListingOwnsAllLines(files[1..], size);
      OwnAllConcat(BlocksFrom(files[0], size, 0), Listing(files[1..], size), size);
    }
  }

  lemma OwnAllSplit(bs: seq<Block>, k: nat, size: nat)
    requires ValidBlocks(bs, size) && k < |bs|
    ensures ValidBlocks(bs[..k] + bs[k + 1..], size)
    ensures multiset(OwnAll(bs, size)) ==
              multiset(OwnLines(bs[k], size)) + multiset(OwnAll(bs[..k] + bs[k + 1..], size))
  {
    var front, back := bs[..k], bs[k + 1..];
    assert bs == front + ([bs[k]] + back);
    OwnAllConcat(front, [bs[k]] + back, size);
    OwnAllCons(bs[k], back, size);
    OwnAllConcat(front, back, size);
  }

  /** The lines owned by a collection of blocks do not depend on their order. */
  lemma {:induction false} OrderDoesNotMatter(a: seq<Block>, b: seq<Block>, size: nat)
    requires ValidBlocks(a, size) && ValidBlocks(b, size) && multiset(a) == multiset(b)
    ensures multiset(OwnAll(a, size)) == multiset(OwnAll(b, size))
    decreases |a|
  {
    if a == [] {
      assert |multiset(b)| == 0;
    } else {
      var k := FirstFound(a, b);
      OwnAllSplit(b, k, size);
      OrderDoesNotMatter(a[1..], b[..k] + b[k + 1..], size);
    }
  }

  /** The blocks handed to all the readers together. */
  function HandedOut(readers: seq<seq<Block>>): seq<Block>
  {
    if readers == [] then [] else readers[0] + HandedOut(readers[1..])
  }

  ghost predicate ValidReaders(readers: seq<seq<Block>>, size: nat) {
    forall i :: 0 <= i < |readers| ==> ValidBlocks(readers[i], size)
  }

  /** The non-empty records all the readers together return. */
  function AllRecords(readers: seq<seq<Block>>, size: nat): seq<string>
    requires ValidReaders(readers, size)
  {
    if readers == [] then []
    else NonEmpty(ReaderRecords(readers[0], size, true)) + AllRecords(readers[1..], size)
  }

  ghost predicate AllReadable(bs: seq<Block>, size: nat)
    requires ValidBlocks(bs, size)
  {
    forall b :: b in bs ==> Readable(b, size)
  }

  lemma {:induction false} ReaderOfReadable(bs: seq<Block>, size: nat, atStart: bool)
    requires ValidBlocks(bs, size) && AllReadable(bs, size)
    ensures NonEmpty(ReaderRecords(bs, size, atStart)) == OwnAll(bs, size)
  {
    if bs == [] {
    } else {
      var (records, flush) := BlockRecords(bs[0], size, atStart);
      NonEmptyConcat(records, ReaderRecords(bs[1..], size, !flush));
      ReadableBlock(bs[0], size, atStart);
      ReaderOfReadable(bs[1..], size, !flush);
    }
  }

  lemma {:induction false} ReadersOfReadable(readers: seq<seq<Block>>, size: nat)
    requires ValidReaders(readers, size) && ValidBlocks(HandedOut(readers), size)
             && AllReadable(HandedOut(readers), size)
    ensures AllRecords(readers, size) == OwnAll(HandedOut(readers), size)
  {
    if readers == [] {
    } else {
      var head, rest := readers[0], HandedOut(readers[1..]);
      assert forall i :: 0 <= i < |rest| ==> rest[i] == HandedOut(readers)[|head| + i];
      ReaderOfReadable(head, size, true);
      ReadersOfReadable(readers[1..], size);
      OwnAllConcat(head, rest, size);
    }
  }

  /**
   * Line ownership.  However the blocks of the files are handed out to readers, and in whatever order:
   * if every file's first block has two bytes and every other block a newline, the non-empty records
   * of all readers are, with multiplicities, the non-empty lines of the files.
   */
  lemma EachLineOnce(files: seq<string>, size: nat, readers: seq<seq<Block>>)
    requires size > 0 && ValidReaders(readers, size)
    requires multiset(HandedOut(readers)) == multiset(Listing(files, size))
    requires AllReadable(Listing(files, size), size)
    ensures multiset(AllRecords(readers, size)) == multiset(AllLines(files))
  {
    SameBlocks(files, size, readers);
    ReadersOfReadable(readers, size);
    OrderDoesNotMatter(HandedOut(readers), Listing(files, size), size);
    ListingOwnsAllLines(files, size);
  }

  lemma SameBlocks(files: seq<string>, size: nat, readers: seq<seq<Block>>)
    requires size > 0 && multiset(HandedOut(readers)) == multiset(Listing(files, size))
    ensures forall b :: b in HandedOut(readers) <==> b in Listing(files, size)
    ensures ValidBlocks(HandedOut(readers), size)
  {
    var out, all := HandedOut(readers), Listing(files, size);
    forall b ensures b in out <==> b in all {
      assert b in out <==> b in multiset(out);
      assert b in all <==> b in multiset(all);
    }
    forall i | 0 <= i < |out| ensures ValidBlock(out[i], size) {
      assert out[i] in all;
    }
  }

  // ---------------------------------------------------------------- when it fails

  /** How many of the blocks lack the newline a later block needs. */
  function Unreadable(bs: seq<Block>, size: nat): nat
    requires ValidBlocks(bs, size)
  {
    if bs == [] then 0 else (if Readable(bs[0], size) then 0 else 1) + Unreadable(bs[1..], size)
  }

  /** No block is a single byte, unless it is one its reader can read: the newline of a later block. */
  ghost predicate TwoBytesOrReadable(bs: seq<Block>, size: nat)
    requires ValidBlocks(bs, size)
  {
    forall b :: b in bs ==> BlockEnd(b, size) >= b.offset + 2 || Readable(b, size)
  }

  lemma {:induction false} ReaderCount(bs: seq<Block>, size: nat, atStart: bool)
    requires ValidBlocks(bs, size) && TwoBytesOrReadable(bs, size)
    ensures |NonEmpty(ReaderRecords(bs, size, atStart))| == |OwnAll(bs, size)| + Unreadable(bs, size)
  {
    if bs == [] {
    } else {
      var (records, flush) := BlockRecords(bs[0], size, atStart);
      NonEmptyConcat(records, ReaderRecords(bs[1..], size, !flush));
      if Readable(bs[0], size) {
        ReadableBlock(bs[0], size, atStart);
      } else {
        UnreadableBlock(bs[0], size, atStart);
      }
      ReaderCount(bs[1..], size, !flush);
    }
  }

  lemma {:induction false} UnreadableConcat(a: seq<Block>, b: seq<Block>, size: nat)
    requires ValidBlocks(a, size) && ValidBlocks(b, size)
    ensures Unreadable(a + b, size) == Unreadable(a, size) + Unreadable(b, size)
  {
    if a == [] {
      assert a + b == b;
    } else {
      UnreadableConcat(a[1..], b, size);
      assert (a + b)[1..] == a[1..] + b;
    }
  }

  lemma {:induction false} ReadersCount(readers: seq<seq<Block>>, size: nat)
    requires ValidReaders(readers, size) && ValidBlocks(HandedOut(readers), size)
             && TwoBytesOrReadable(HandedOut(readers), size)
    ensures |AllRecords(readers, size)| == |OwnAll(HandedOut(readers), size)| + Unreadable(HandedOut(readers), size)
  {
    if readers == [] {
    } else {
      var head, rest := readers[0], HandedOut(readers[1..]);
      assert forall i :: 0 <= i < |rest| ==> rest[i] == HandedOut(readers)[|head| + i];
      ReaderCount(head, size, true);
      ReadersCount(readers[1..], size);
      OwnAllConcat(head, rest, size);
      UnreadableConcat(head, rest, size);
    }
  }

  lemma {:induction false} NoneUnreadable(bs: seq<Block>, size: nat)
    requires ValidBlocks(bs, size) && Unreadable(bs, size) == 0
    ensures AllReadable(bs, size)
  {
    if bs == [] {
    } else {
      NoneUnreadable(bs[1..], size);
      assert bs == [bs[0]] + bs[1..];
    }
  }

  /**
   * When no block is an unreadable single byte, the newline in every later block is also necessary, for
   * every way to hand the blocks out: the records are the lines exactly when every later block has a newline.
   */
  lemma EachLineOnceExactlyWhen(files: seq<string>, size: nat, readers: seq<seq<Block>>)
    requires size > 0 && ValidReaders(readers, size)
    requires multiset(HandedOut(readers)) == multiset(Listing(files, size))
    requires TwoBytesOrReadable(Listing(files, size), size)
    ensures multiset(AllRecords(readers, size)) == multiset(AllLines(files)) <==>
              AllReadable(Listing(files, size), size)
  {
    var out, all := HandedOut(readers), Listing(files, size);
    SameBlocks(files, size, readers);
    if AllReadable(all, size) {
      EachLineOnce(files, size, readers);
    } else {
      ReadersCount(readers, size);
      OrderDoesNotMatter(out, all, size);
      ListingOwnsAllLines(files, size);
      assert |multiset(OwnAll(out, size))| == |multiset(AllLines(files))|;
      if Unreadable(out, size) == 0 {
        NoneUnreadable(out, size);
      }
      assert |multiset(AllRecords(readers, size))| > |multiset(AllLines(files))|;
    }
  }

  /**
   * A file of a single byte is a block the reader mistakes for one it has finished, unless it gets to it
   * within a call: the same two files lose a line or not, depending on whether one reader or two read them.
   */
  lemma SingleByteDependsOnHistory()
    ensures var x, y := Block("x\n", 0), Block("y", 0);
            && ReaderRecords([x, y], 2, true) == ["x", "y"]
            && ReaderRecords([x], 2, true) == ["x"]
            && ReaderRecords([y], 2, true) == []
  {
    var x, y := Block("x\n", 0), Block("y", 0);
    assert End("x\n", 1) == 1 && End("y", 1) == 1;
    assert Line("x\n", 0) == "x" && Line("y", 0) == "y";
    assert RecordsAfter("x\n", 2, 1) == ([], true);
    assert RecordsFrom("x\n", 2, 0) == (["x"] + [], true);
    assert BlockRecords(y, 2, false) == (["y"], false);
    assert BlockRecords(y, 2, true) == ([], true);
    assert [x, y][1..] == [y];
    assert ReaderRecords([y], 2, false) == ["y"] + [];
    assert ReaderRecords([x], 2, true) == ["x"] + [];
  }
}
