/**
 * Distributed input as a whole: the blocks the coordinator hands out (BlockAssigner), read by the workers
 * it hands them to (LineOwnership).
 */
module InputReading {
  import opened Basics
  import BA = BlockAssigner
  import LI = LineInput
  import opened LineOwnership

  // ---------------------------------------------------------------- a directory and its blocks

  /** What a reader finds under an answer; contents are the files', by the names the coordinator gives out. */
  function Found(contents: string -> string, b: BA.Block): LI.Block
  {
    LI.Block(contents(b.file), b.offset)
  }

  function FoundAll(contents: string -> string, bs: seq<BA.Block>): seq<LI.Block>
  {
    seq(|bs|, i requires 0 <= i < |bs| => Found(contents, bs[i]))
  }

  lemma FoundConcat(contents: string -> string, a: seq<BA.Block>, b: seq<BA.Block>)
    ensures FoundAll(contents, a + b) == FoundAll(contents, a) + FoundAll(contents, b)
  {
  }

  function Name(f: BA.FileInfo): string
  {
    f.name + [BA.NUL]
  }

  /** The file has this content, this block size, and at least one replica of every block. */
  ghost predicate FileOk(f: BA.FileInfo, locate: (string, nat) -> seq<string>, contents: string -> string, size: nat)
    requires size > 0
  {
    && f.size == |contents(Name(f))| && f.blockSize == size
    && forall o: nat :: o < f.size && BA.IsStart(o, size) ==> locate(f.name, o) != []
  }

  /** The directory lists distinct files, all of the block size the readers use. */
  ghost predicate Describes(d: BA.Directory, contents: string -> string, size: nat) {
    && size > 0
    && (forall i :: 0 <= i < |d.files| && d.files[i].isFile ==> FileOk(d.files[i], d.locate, contents, size))
    && DistinctNames(d.files)
  }

  ghost predicate DistinctNames(files: seq<BA.FileInfo>) {
    forall i, j :: 0 <= i < j < |files| && files[i].isFile && files[j].isFile ==> files[i].name != files[j].name
  }

  function Texts(files: seq<BA.FileInfo>, contents: string -> string): seq<string>
  {
    if files == [] then []
    else (if files[0].isFile then [contents(Name(files[0]))] else []) + Texts(files[1..], contents)
  }

  function FileBlocks(f: BA.FileInfo, size: nat, o: nat): seq<BA.Block>
    requires size > 0
    decreases f.size - o
  {
    if o >= f.size then [] else [BA.Block(Name(f), o)] + FileBlocks(f, size, o + size)
  }

  function DirectoryBlocks(files: seq<BA.FileInfo>, size: nat): seq<BA.Block>
    requires size > 0
  {
    if files == [] then []
    else (if files[0].isFile then FileBlocks(files[0], size, 0) else []) + DirectoryBlocks(files[1..], size)
  }

  lemma {:induction false} InFileBlocks(f: BA.FileInfo, size: nat, o: nat, b: BA.Block)
    requires size > 0 && BA.IsStart(o, size)
    ensures b in FileBlocks(f, size, o) <==> b.file == Name(f) && o <= b.offset < f.size && BA.IsStart(b.offset, size)
    decreases f.size - o
  {
    if o >= f.size {
    } else {
      InFileBlocks(f, size, o + size, b);
      if BA.IsStart(b.offset, size) && b.offset < o + size {
        BA.OnlyStart(o, size, b.offset);
      }
    }
  }

  lemma {:induction false} FileBlockOnce(f: BA.FileInfo, size: nat, o: nat, b: BA.Block)
    requires size > 0 && BA.IsStart(o, size)
    ensures multiset(FileBlocks(f, size, o))[b] <= 1
    decreases f.size - o
  {
    if o >= f.size {
    } else {
      FileBlockOnce(f, size, o + size, b);
      InFileBlocks(f, size, o + size, b);
    }
  }

  /** The directory's blocks are those of its files. */
  ghost predicate IsBlockOf(f: BA.FileInfo, size: nat, b: BA.Block)
    requires size > 0
  {
    f.isFile && b.file == Name(f) && b.offset < f.size && BA.IsStart(b.offset, size)
  }

  lemma {:induction false} InDirectoryBlocks(files: seq<BA.FileInfo>, size: nat, b: BA.Block)
    requires size > 0
    ensures b in DirectoryBlocks(files, size) <==> exists i :: 0 <= i < |files| && IsBlockOf(files[i], size, b)
  {
    if files == [] {
    } else {
      InDirectoryBlocks(files[1..], size, b);
      if files[0].isFile {
        InFileBlocks(files[0], size, 0, b);
      }
      if i :| 0 <= i < |files[1..]| && IsBlockOf(files[1..][i], size, b) {
        assert IsBlockOf(files[i + 1], size, b);
      }
      if i :| 0 <= i < |files| && IsBlockOf(files[i], size, b) && i > 0 {
        assert files[1..][i - 1] == files[i];
      }
    }
  }

  lemma NotOfOthers(files: seq<BA.FileInfo>, size: nat, b: BA.Block)
    requires size > 0 && files != [] && DistinctNames(files) && IsBlockOf(files[0], size, b)
    ensures b !in DirectoryBlocks(files[1..], size)
  {
    InDirectoryBlocks(files[1..], size, b);
    forall i | 0 <= i < |files[1..]| ensures !IsBlockOf(files[1..][i], size, b) {
      assert files[1..][i] == files[i + 1];
      assert Name(files[0])[..|files[0].name|] == files[0].name;
      assert Name(files[i + 1])[..|files[i + 1].name|] == files[i + 1].name;
    }
  }

  lemma {:induction false} DirectoryBlockOnce(files: seq<BA.FileInfo>, size: nat, b: BA.Block)
    requires size > 0 && DistinctNames(files)
    ensures multiset(DirectoryBlocks(files, size))[b] <= 1
  {
    if files == [] {
    } else {
      RestDistinct(files);
      DirectoryBlockOnce(files[1..], size, b);
      var first := if files[0].isFile then FileBlocks(files[0], size, 0) else [];
      var rest := DirectoryBlocks(files[1..], size);
      assert multiset(first + rest)[b] == multiset(first)[b] + multiset(rest)[b];
      if files[0].isFile {
        FileBlockOnce(files[0], size, 0, b);
        InFileBlocks(files[0], size, 0, b);
        if b in first {
          NotOfOthers(files, size, b);
        }
      }
    }
  }

  lemma RestDistinct(files: seq<BA.FileInfo>)
    requires files != [] && DistinctNames(files)
    ensures DistinctNames(files[1..])
  {
    assert forall i :: 0 <= i < |files[1..]| ==> files[1..][i] == files[i + 1];
  }

  lemma {:induction false} FileListing(f: BA.FileInfo, contents: string -> string, size: nat, o: nat)
    requires size > 0 && f.size == |contents(Name(f))|
    ensures FoundAll(contents, FileBlocks(f, size, o)) == BlocksFrom(contents(Name(f)), size, o)
    decreases f.size - o
  {
    if o >= f.size {
    } else {
      FileListing(f, contents, size, o + size);
      FoundConcat(contents, [BA.Block(Name(f), o)], FileBlocks(f, size, o + size));
    }
  }

  /** What the readers find under the directory's blocks is the listing of its files. */
  lemma {:induction false} DirectoryListing(files: seq<BA.FileInfo>, contents: string -> string, size: nat)
    requires size > 0
    requires forall i :: 0 <= i < |files| && files[i].isFile ==> files[i].size == |contents(Name(files[i]))|
    ensures FoundAll(contents, DirectoryBlocks(files, size)) == Listing(Texts(files, contents), size)
  {
    if files == [] {
    } else {
      var first, rest := files[0], files[1..];
      DirectoryListing(rest, contents, size);
      if first.isFile {
        FileListing(first, contents, size, 0);
        FoundConcat(contents, FileBlocks(first, size, 0), DirectoryBlocks(rest, size));
        ListingCons(contents(Name(first)), Texts(rest, contents), size);
      } else {
        assert [] + DirectoryBlocks(rest, size) == DirectoryBlocks(rest, size);
        assert [] + Texts(rest, contents) == Texts(rest, contents);
      }
    }
  }

  lemma ListingCons(text: string, texts: seq<string>, size: nat)
    requires size > 0
    ensures Listing([text] + texts, size) == BlocksFrom(text, size, 0) + Listing(texts, size)
  {
    assert ([text] + texts)[1..] == texts;
  }

  lemma FoundWithout(contents: string -> string, bs: seq<BA.Block>, i: nat)
    requires i < |bs|
    ensures multiset(FoundAll(contents, bs)) ==
              multiset(FoundAll(contents, bs[..i] + bs[i + 1..])) + multiset{Found(contents, bs[i])}
  {
    var found := FoundAll(contents, bs);
    assert FoundAll(contents, bs[..i] + bs[i + 1..]) == found[..i] + found[i + 1..];
    MultisetWithout(found, i);
  }

  lemma {:induction false} SameFound(contents: string -> string, a: seq<BA.Block>, b: seq<BA.Block>)
    requires multiset(a) == multiset(b)
    ensures multiset(FoundAll(contents, a)) == multiset(FoundAll(contents, b))
  {
    hide FoundAll;
    if a == [] {
      assert |multiset(b)| == 0;
    } else {
      var i := FirstFound(a, b);
      SameFound(contents, a[1..], b[..i] + b[i + 1..]);
      FoundWithout(contents, a, 0);
      assert a[..0] + a[1..] == a[1..];
      FoundWithout(contents, b, i);
    }
  }

  // ---------------------------------------------------------------- what is handed out

  /** The blocks handed out for k by the requests from number m to n - 1. */
  function Answers(rs: seq<BA.Request>, bs: seq<BA.Block>, k: BA.Key, m: nat, n: nat): seq<BA.Block>
    requires m <= n <= |rs| == |bs|
  {
    if n == m then []
    else Answers(rs, bs, k, m, n - 1) + if rs[n - 1].key == k && bs[n - 1] != BA.NOTHING then [bs[n - 1]] else []
  }

  lemma {:induction false} HandedAreAnswers(tr: seq<BA.State>, rs: seq<BA.Request>, ds: seq<BA.Directory>,
                                            bs: seq<BA.Block>, k: BA.Key,
                                            m: nat, n: nat)
    requires BA.IsRun(tr, rs, ds, bs) && BA.Listed(tr, rs, k, m, n)
    ensures tr[n].connected && BA.Inv(tr[n])
    ensures tr[n].tables[k].handed == Answers(rs, bs, k, m, n)
    ensures BA.IsListing(tr[n].tables[k].listed, ds[m])
  {
    BA.RunInv(tr, rs, ds, bs, n - 1);
    BA.RunInv(tr, rs, ds, bs, n);
    BA.OneAnswer(tr[n - 1], rs[n - 1], ds[n - 1], bs[n - 1], tr[n], k);
    if n == m + 1 {
      assert Answers(rs, bs, k, m, m) == [];
    } else {
      HandedAreAnswers(tr, rs, ds, bs, k, m, n - 1);
    }
  }

  /** When a request is refused, every block of the directory has been handed out, once. */
  lemma HandedAreDirectory(tr: seq<BA.State>, rs: seq<BA.Request>, ds: seq<BA.Directory>, bs: seq<BA.Block>, k: BA.Key,
                           m: nat, n: nat,
                           contents: string -> string, size: nat)
    requires BA.IsRun(tr, rs, ds, bs) && BA.Listed(tr, rs, k, m, n) && n < |bs| && rs[n].key == k && bs[n] == BA.NOTHING
    requires Describes(ds[m], contents, size)
    ensures multiset(Answers(rs, bs, k, m, n)) == multiset(DirectoryBlocks(ds[m].files, size))
  {
    HandedAreAnswers(tr, rs, ds, bs, k, m, n);
    BA.EmptyExactlyWhenAllHanded(tr, rs, ds, bs, n);
    var t, all := tr[n].tables[k], DirectoryBlocks(ds[m].files, size);
    forall b ensures multiset(t.handed)[b] == multiset(all)[b] {
      BA.AtMostOnce(t.handed, b);
      DirectoryBlockOnce(ds[m].files, size, b);
      ListedIsBlock(t.listed, ds[m], contents, size, b);
      assert b in all <==> b in multiset(all);
      assert b in t.handed <==> b in multiset(t.handed);
      HandedIsListed(t, b);
    }
  }

  lemma HandedIsListed(t: BA.Table, b: BA.Block)
    requires BA.TableOk(t) && forall h, b :: BA.On(t.listed, h, b) ==> b in t.handed
    ensures b in t.handed <==> BA.InListing(t.listed, b)
  {
    if b in t.handed {
      var i :| 0 <= i < |t.handed| && t.handed[i] == b;
      assert BA.InListing(t.listed, t.handed[i]);
    }
  }

  lemma ListedIsBlock(l: BA.Locality, d: BA.Directory, contents: string -> string, size: nat, b: BA.Block)
    requires BA.IsListing(l, d) && Describes(d, contents, size)
    ensures BA.InListing(l, b) <==> b in DirectoryBlocks(d.files, size)
  {
    InDirectoryBlocks(d.files, size, b);
    if BA.InListing(l, b) {
      var h :| BA.On(l, h, b);
      assert BA.Replica(d, h, b);
      var i :| 0 <= i < |d.files| && BA.Stored(d.files[i], d.locate, h, b);
      assert FileOk(d.files[i], d.locate, contents, size);
      assert IsBlockOf(d.files[i], size, b);
    }
    if i :| 0 <= i < |d.files| && IsBlockOf(d.files[i], size, b) {
      assert FileOk(d.files[i], d.locate, contents, size);
      var hosts := d.locate(d.files[i].name, b.offset);
      assert BA.Stored(d.files[i], d.locate, hosts[0], b);
      assert BA.Replica(d, hosts[0], b);
      assert BA.On(l, hosts[0], b);
    }
  }

  // ---------------------------------------------------------------- the readers

  /** Those of the answers that reader r was given; who[i] is the reader that sent request i. */
  function GivenTo(rs: seq<BA.Request>, bs: seq<BA.Block>, who: seq<nat>, k: BA.Key, m: nat, n: nat,
                   r: nat): seq<BA.Block>
    requires m <= n <= |rs| == |bs| == |who|
  {
    if n == m then []
    else GivenTo(rs, bs, who, k, m, n - 1, r) +
         if rs[n - 1].key == k && bs[n - 1] != BA.NOTHING && who[n - 1] == r then [bs[n - 1]] else []
  }

  /** What each of so many readers is given. */
  function Readers(rs: seq<BA.Request>, bs: seq<BA.Block>, who: seq<nat>, k: BA.Key, m: nat, n: nat,
                   contents: string -> string, count: nat)
    : (readers: seq<seq<LI.Block>>)
    requires m <= n <= |rs| == |bs| == |who|
    ensures |readers| == count
    ensures forall r :: 0 <= r < count ==> readers[r] == FoundAll(contents, GivenTo(rs, bs, who, k, m, n, r))
  {
    seq(count, r requires 0 <= r < count => FoundAll(contents, GivenTo(rs, bs, who, k, m, n, r)))
  }

  lemma {:induction false} NobodyGiven(readers: seq<seq<LI.Block>>)
    requires forall r :: 0 <= r < |readers| ==> readers[r] == []
    ensures HandedOut(readers) == []
  {
    if readers == [] {
    } else {
      NobodyGiven(readers[1..]);
    }
  }

  lemma {:induction false} OneMoreGiven(readers: seq<seq<LI.Block>>, r: nat, b: LI.Block)
    requires r < |readers|
    ensures multiset(HandedOut(readers[r := readers[r] + [b]])) == multiset(HandedOut(readers)) + multiset{b}
  {
    var readers' := readers[r := readers[r] + [b]];
    if r == 0 {
      assert readers'[1..] == readers[1..];
    } else {
      OneMoreGiven(readers[1..], r - 1, b);
      assert readers'[1..] == readers[1..][r - 1 := readers[1..][r - 1] + [b]];
    }
  }

  /** What request n - 1 adds to what the readers are given. */
  lemma GivenStep(rs: seq<BA.Request>, bs: seq<BA.Block>, who: seq<nat>, k: BA.Key, m: nat, n: nat,
                  contents: string -> string, count: nat)
    requires m < n <= |rs| == |bs| == |who| && who[n - 1] < count
    ensures var before, w := Readers(rs, bs, who, k, m, n - 1, contents, count), who[n - 1];
            Readers(rs, bs, who, k, m, n, contents, count) ==
              if rs[n - 1].key == k && bs[n - 1] != BA.NOTHING
              then before[w := before[w] + [Found(contents, bs[n - 1])]]
              else before
  {
    var before := Readers(rs, bs, who, k, m, n - 1, contents, count);
    var after := Readers(rs, bs, who, k, m, n, contents, count);
    var given := rs[n - 1].key == k && bs[n - 1] != BA.NOTHING;
    forall r: nat | r < count
      ensures after[r] == if given && who[n - 1] == r then before[r] + [Found(contents, bs[n - 1])] else before[r]
    {
      FoundConcat(contents, GivenTo(rs, bs, who, k, m, n - 1, r), [bs[n - 1]]);
      assert GivenTo(rs, bs, who, k, m, n - 1, r) + [] == GivenTo(rs, bs, who, k, m, n - 1, r);
    }
  }

  /** What request n - 1 hands out for k. */
  function Answer(rs: seq<BA.Request>, bs: seq<BA.Block>, k: BA.Key, n: nat,
                  contents: string -> string): multiset<LI.Block>
    requires 0 < n <= |rs| == |bs|
  {
    if rs[n - 1].key == k && bs[n - 1] != BA.NOTHING then multiset{Found(contents, bs[n - 1])} else multiset{}
  }

  lemma AnswersStep(rs: seq<BA.Request>, bs: seq<BA.Block>, k: BA.Key, m: nat, n: nat, contents: string -> string)
    requires m < n <= |rs| == |bs|
    ensures multiset(FoundAll(contents, Answers(rs, bs, k, m, n))) ==
            multiset(FoundAll(contents, Answers(rs, bs, k, m, n - 1))) + Answer(rs, bs, k, n, contents)
  {
    var before := Answers(rs, bs, k, m, n - 1);
    FoundConcat(contents, before, [bs[n - 1]]);
    assert before + [] == before;
  }

  lemma HandedOutStep(rs: seq<BA.Request>, bs: seq<BA.Block>, who: seq<nat>, k: BA.Key, m: nat, n: nat,
                      contents: string -> string, count: nat)
    requires m < n <= |rs| == |bs| == |who| && who[n - 1] < count
    ensures multiset(HandedOut(Readers(rs, bs, who, k, m, n, contents, count))) ==
            multiset(HandedOut(Readers(rs, bs, who, k, m, n - 1, contents, count))) + Answer(rs, bs, k, n, contents)
  {
    GivenStep(rs, bs, who, k, m, n, contents, count);
    OneMoreGiven(Readers(rs, bs, who, k, m, n - 1, contents, count), who[n - 1], Found(contents, bs[n - 1]));
  }

  /** Together the readers are given what was handed out. */
  lemma {:induction false} GivenIsHandedOut(rs: seq<BA.Request>, bs: seq<BA.Block>, who: seq<nat>, k: BA.Key, m: nat,
                                            n: nat,
                                            contents: string -> string, count: nat)
    requires m <= n <= |rs| == |bs| == |who| && forall i :: 0 <= i < |who| ==> who[i] < count
    ensures multiset(HandedOut(Readers(rs, bs, who, k, m, n, contents, count))) ==
              multiset(FoundAll(contents, Answers(rs, bs, k, m, n)))
    decreases n - m
  {
    if n == m {
      NobodyGiven(Readers(rs, bs, who, k, m, n, contents, count));
    } else {
      hide HandedOut, FoundAll, Readers, Answers, Answer;
      GivenIsHandedOut(rs, bs, who, k, m, n - 1, contents, count);
      HandedOutStep(rs, bs, who, k, m, n, contents, count);
      AnswersStep(rs, bs, k, m, n, contents);
    }
  }

  lemma {:induction false} InHandedOut(readers: seq<seq<LI.Block>>, r: nat, i: nat)
    requires r < |readers| && i < |readers[r]|
    ensures readers[r][i] in HandedOut(readers)
  {
    if r == 0 {
    } else {
      InHandedOut(readers[1..], r - 1, i);
    }
  }

  /**
   * When a request for a URL is refused, whichever workers and hosts have asked for it since it was listed,
   * and for whatever other URLs in between: the blocks the readers have been given are the listing of the
   * directory's files, each block once.
   */
  lemma GivenIsListing(tr: seq<BA.State>, rs: seq<BA.Request>, ds: seq<BA.Directory>, bs: seq<BA.Block>, who: seq<nat>,
                       k: BA.Key,
                       m: nat, n: nat, contents: string -> string, size: nat, count: nat)
    requires BA.IsRun(tr, rs, ds, bs) && BA.Listed(tr, rs, k, m, n) && n < |bs| && rs[n].key == k && bs[n] == BA.NOTHING
    requires Describes(ds[m], contents, size)
    requires |who| == |bs| && forall i :: 0 <= i < |who| ==> who[i] < count
    ensures multiset(HandedOut(Readers(rs, bs, who, k, m, n, contents, count))) ==
              multiset(Listing(Texts(ds[m].files, contents), size))
  {
    GivenIsHandedOut(rs, bs, who, k, m, n, contents, count);
    HandedAreDirectory(tr, rs, ds, bs, k, m, n, contents, size);
    SameFound(contents, Answers(rs, bs, k, m, n), DirectoryBlocks(ds[m].files, size));
    forall i | 0 <= i < |ds[m].files| && ds[m].files[i].isFile
      ensures ds[m].files[i].size == |contents(Name(ds[m].files[i]))|
    {
      assert FileOk(ds[m].files[i], ds[m].locate, contents, size);
    }
    DirectoryListing(ds[m].files, contents, size);
  }

  /**
   * Distributed input.  Once a request for a URL is refused, the non-empty records the readers return from
   * the blocks they were given are, with multiplicities, the non-empty lines of the directory's files, if
   * every file's first block has two bytes and every other block a newline; and with no unreadable block of
   * a single byte, only then.
   */
  lemma EveryLineReadOnce(tr: seq<BA.State>, rs: seq<BA.Request>, ds: seq<BA.Directory>, bs: seq<BA.Block>,
                          who: seq<nat>, k: BA.Key,
                          m: nat, n: nat, contents: string -> string, size: nat, count: nat)
    requires BA.IsRun(tr, rs, ds, bs) && BA.Listed(tr, rs, k, m, n) && n < |bs| && rs[n].key == k && bs[n] == BA.NOTHING
    requires Describes(ds[m], contents, size)
    requires |who| == |bs| && forall i :: 0 <= i < |who| ==> who[i] < count
    ensures ValidReaders(Readers(rs, bs, who, k, m, n, contents, count), size)
    ensures var records := AllRecords(Readers(rs, bs, who, k, m, n, contents, count), size);
            var texts := Texts(ds[m].files, contents);
            && (AllReadable(Listing(texts, size), size) ==> multiset(records) == multiset(AllLines(texts)))
            && (TwoBytesOrReadable(Listing(texts, size), size) ==>
                  (multiset(records) == multiset(AllLines(texts)) <==> AllReadable(Listing(texts, size), size)))
  {
    var readers, texts := Readers(rs, bs, who, k, m, n, contents, count), Texts(ds[m].files, contents);
    GivenIsListing(tr, rs, ds, bs, who, k, m, n, contents, size, count);
    ReadersValid(readers, Listing(texts, size), size);
    if AllReadable(Listing(texts, size), size) {
      EachLineOnce(texts, size, readers);
    }
    if TwoBytesOrReadable(Listing(texts, size), size) {
      EachLineOnceExactlyWhen(texts, size, readers);
    }
  }

  lemma ReadersValid(readers: seq<seq<LI.Block>>, all: seq<LI.Block>, size: nat)
    requires multiset(HandedOut(readers)) == multiset(all) && LI.ValidBlocks(all, size)
    ensures ValidReaders(readers, size)
  {
    forall r: nat, i: nat | r < |readers| && i < |readers[r]| ensures LI.ValidBlock(readers[r][i], size) {
      InHandedOut(readers, r, i);
      assert readers[r][i] in multiset(HandedOut(readers));
      var a :| 0 <= a < |all| && all[a] == readers[r][i];
    }
  }
}
