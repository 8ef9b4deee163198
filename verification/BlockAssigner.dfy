/**
 * The coordinator that hands out the blocks of the files under a URL, io/hdfs_assigner.cpp.  A block is
 * stored on several hosts; a worker gets one from its own host when there is one left there.
 */
module BlockAssigner {

  const NUL := '\0'

  datatype Block = Block(file: string, offset: nat)

  /** The blocks on each host. */
  type Locality = map<string, set<Block>>

  /** A task's id and a URL. */
  datatype Key = Key(id: nat, url: string)

  datatype FileInfo = FileInfo(name: string, isFile: bool, size: nat, blockSize: nat)

  /** What the file system lists under a URL, and the hosts of each block. */
  datatype Directory = Directory(files: seq<FileInfo>, locate: (string, nat) -> seq<string>)

  ghost predicate ValidDirectory(d: Directory) {
    forall i :: 0 <= i < |d.files| ==> d.files[i].blockSize > 0
  }

  /** Whether a block starts at this offset. */
  ghost predicate IsStart(offset: nat, blockSize: nat)
    requires blockSize > 0
  {
    offset == 0 || (offset >= blockSize && IsStart(offset - blockSize, blockSize))
  }

  ghost predicate Stored(f: FileInfo, locate: (string, nat) -> seq<string>, h: string, b: Block) {
    && f.isFile && b.file == f.name + [NUL] && b.offset < f.size
    && f.blockSize > 0 && IsStart(b.offset, f.blockSize) && h in locate(f.name, b.offset)
  }

  /** Host h has a replica of block b. */
  ghost predicate Replica(d: Directory, h: string, b: Block) {
    exists i :: 0 <= i < |d.files| && Stored(d.files[i], d.locate, h, b)
  }

  ghost predicate On(l: Locality, h: string, b: Block) {
    h in l && b in l[h]
  }

  ghost predicate IsListing(l: Locality, d: Directory) {
    forall h, b :: On(l, h, b) <==> Replica(d, h, b)
  }

  // ---------------------------------------------------------------- the state and one request

  /**
   * What is kept for one URL of a task, from its listing until it is reset: the blocks left, and how many
   * requests were refused.  What was listed and what was handed out are for the specification.
   */
  datatype Table = Table(left: Locality, refused: nat, listed: Locality, handed: seq<Block>)

  datatype State = State(connected: bool, tables: map<Key, Table>)

  /** A block request; alive is the number of workers it announces. */
  datatype Request = Request(host: string, key: Key, alive: nat)

  const NOTHING: Block := Block("", 0)

  function WithHost(l: Locality, host: string): Locality
  {
    if host in l then l else l[host := {}]
  }

  ghost predicate AnyLeft(l: Locality) {
    exists h :: h in l && l[h] != {}
  }

  /** A block of this host, or of any other when it has none. */
  ghost predicate MayChoose(l: Locality, host: string, b: Block) {
    if host in l && l[host] != {} then b in l[host] else exists h :: On(l, h, b)
  }

  function WithoutBlock(l: Locality, b: Block): Locality
  {
    map h | h in l :: l[h] - {b}
  }

  /** The answer to a request on a table; a table that is reset is gone afterwards. */
  ghost predicate Answered(t: Table, r: Request, t': Table, reset: bool, b: Block) {
    var left := WithHost(t.left, r.host);
    if AnyLeft(left) then
      MayChoose(left, r.host, b) && t' == t.(left := WithoutBlock(left, b), handed := t.handed + [b]) && !reset
    else
      b == NOTHING && t' == t.(left := left, refused := t.refused + 1) && reset == (t.refused + 1 == r.alive)
  }

  /** A request on the table there is, or on a new one. */
  ghost predicate Handles(s: State, r: Request, d: Directory, b: Block, s': State, t: Table, t': Table, reset: bool) {
    && (if r.key in s.tables then t == s.tables[r.key] else t == Table(t.left, 0, t.left, []) && IsListing(t.left, d))
    && Answered(t, r, t', reset, b)
    && s' == s.(tables := if reset then s.tables - {r.key} else s.tables[r.key := t'])
  }

  ghost predicate Next(s: State, r: Request, d: Directory, b: Block, s': State) {
    if !s.connected then s' == s && b == NOTHING
    else exists t, t', reset :: Handles(s, r, d, b, s', t, t', reset)
  }

  // ---------------------------------------------------------------- what a table keeps

  ghost predicate NamesNonEmpty(l: Locality) {
    forall h, b :: On(l, h, b) ==> b.file != ""
  }

  ghost predicate InListing(l: Locality, b: Block) {
    exists h :: On(l, h, b)
  }

  /** What is left on each host is what was listed there, without what was handed out; nothing was handed out twice. */
  ghost predicate TableOk(t: Table) {
    && NamesNonEmpty(t.listed)
    && (forall h, b :: On(t.left, h, b) <==> On(t.listed, h, b) && b !in t.handed)
    && (forall i :: 0 <= i < |t.handed| ==> InListing(t.listed, t.handed[i]))
    && (forall i, j :: 0 <= i < j < |t.handed| ==> t.handed[i] != t.handed[j])
  }

  ghost predicate Inv(s: State) {
    forall k :: k in s.tables ==> TableOk(s.tables[k])
  }

  lemma WithHostSame(l: Locality, host: string)
    ensures forall h, b :: On(WithHost(l, host), h, b) <==> On(l, h, b)
  {
  }

  lemma ChosenIsLeft(l: Locality, host: string, b: Block) returns (h: string)
    requires MayChoose(l, host, b)
    ensures On(l, h, b)
  {
    if host in l && l[host] != {} {
      h := host;
    } else {
      h :| On(l, h, b);
    }
  }

  lemma AnsweredOk(t: Table, r: Request, t': Table, reset: bool, b: Block)
    requires TableOk(t) && Answered(t, r, t', reset, b)
    ensures TableOk(t')
    ensures b != NOTHING ==> InListing(t.listed, b) && b !in t.handed && t'.handed == t.handed + [b] && !reset
    ensures b == NOTHING <==> forall b' :: InListing(t.listed, b') ==> b' in t.handed
    ensures b == NOTHING ==> t'.handed == t.handed
  {
    var left := WithHost(t.left, r.host);
    WithHostSame(t.left, r.host);
    if AnyLeft(left) {
      var h := ChosenIsLeft(left, r.host, b);
      assert On(t.listed, h, b);
      HandedOk(t, b, left, t');
    } else {
      NothingLeft(t, left);
      assert forall h', b' :: On(left, h', b') <==> On(t'.left, h', b');
    }
  }

  lemma HandedOk(t: Table, b: Block, left: Locality, t': Table)
    requires TableOk(t) && InListing(t.listed, b) && b !in t.handed
    requires forall h', b' :: On(left, h', b') <==> On(t.left, h', b')
    requires t' == t.(left := WithoutBlock(left, b), handed := t.handed + [b])
    ensures TableOk(t')
  {
    forall h', b' ensures On(t'.left, h', b') <==> On(t'.listed, h', b') && b' !in t'.handed {
      assert On(t'.left, h', b') <==> On(left, h', b') && b' != b;
    }
  }

  lemma NothingLeft(t: Table, left: Locality)
    requires TableOk(t) && !AnyLeft(left) && forall h, b :: On(left, h, b) <==> On(t.left, h, b)
    ensures forall b :: InListing(t.listed, b) ==> b in t.handed
  {
    forall b | InListing(t.listed, b) ensures b in t.handed {
      var h :| On(t.listed, h, b);
      assert !On(left, h, b);
    }
  }

  /** A host with a local block gets a local one. */
  lemma LocalFirst(t: Table, r: Request, t': Table, reset: bool, b: Block)
    requires TableOk(t) && Answered(t, r, t', reset, b)
    requires exists b' :: On(t.listed, r.host, b') && b' !in t.handed
    ensures On(t.listed, r.host, b)
  {
    WithHostSame(t.left, r.host);
    var b' :| On(t.listed, r.host, b') && b' !in t.handed;
    var left := WithHost(t.left, r.host);
    assert On(left, r.host, b');
    assert left[r.host] != {};
    assert On(left, r.host, b);
  }

  /** A listed block is either left, on all the hosts it was listed on, or handed out, and then on none. */
  lemma LeftOrHanded(t: Table, h: string, b: Block)
    requires TableOk(t) && On(t.listed, h, b)
    ensures (b in t.handed) != InListing(t.left, b)
    ensures b !in t.handed ==> On(t.left, h, b)
  {
    assert On(t.left, h, b) <==> b !in t.handed;
  }

  // ---------------------------------------------------------------- runs

  ghost predicate IsRun(tr: seq<State>, rs: seq<Request>, ds: seq<Directory>, bs: seq<Block>) {
    && |rs| == |ds| == |bs| && |tr| == |bs| + 1
    && tr[0].tables == map[]
    && forall k :: 0 <= k < |bs| ==> Next(tr[k], rs[k], ds[k], bs[k], tr[k + 1])
  }

  lemma FreshOk(l: Locality, d: Directory)
    requires IsListing(l, d)
    ensures TableOk(Table(l, 0, l, []))
  {
    forall h, b | On(l, h, b) ensures b.file != "" {
      assert Replica(d, h, b);
      var i :| 0 <= i < |d.files| && Stored(d.files[i], d.locate, h, b);
    }
  }

  lemma NextInv(s: State, r: Request, d: Directory, b: Block, s': State)
    requires Inv(s) && Next(s, r, d, b, s')
    ensures Inv(s')
  {
    if s.connected {
      var t, t', reset :| Handles(s, r, d, b, s', t, t', reset);
      if r.key !in s.tables {
        FreshOk(t.left, d);
      }
      AnsweredOk(t, r, t', reset, b);
    }
  }

  lemma {:induction false} RunInv(tr: seq<State>, rs: seq<Request>, ds: seq<Directory>, bs: seq<Block>, n: nat)
    requires IsRun(tr, rs, ds, bs) && n < |tr|
    ensures Inv(tr[n])
  {
    if n == 0 {
    } else {
      RunInv(tr, rs, ds, bs, n - 1);
      NextInv(tr[n - 1], rs[n - 1], ds[n - 1], bs[n - 1], tr[n]);
    }
  }

  /** What a request does to the table of a key that it leaves in place. */
  lemma HandedGrows(s: State, r: Request, d: Directory, b: Block, s': State, k: Key)
    requires Inv(s) && Next(s, r, d, b, s') && k in s'.tables
    ensures k in s.tables ==> s.tables[k].handed <= s'.tables[k].handed && s'.tables[k].listed == s.tables[k].listed
    ensures r.key == k && b != NOTHING ==> b in s'.tables[k].handed && (k in s.tables ==> b !in s.tables[k].handed)
  {
    if s.connected {
      var t, t', reset :| Handles(s, r, d, b, s', t, t', reset);
      if r.key !in s.tables {
        FreshOk(t.left, d);
      }
      AnsweredOk(t, r, t', reset, b);
    }
  }

  /**
   * What a request does to the table of a key that is there afterwards: it is made when there was none, and
   * grows by the answer.
   */
  lemma OneAnswer(s: State, r: Request, d: Directory, b: Block, s': State, k: Key)
    requires Inv(s) && Next(s, r, d, b, s') && k in s'.tables
    ensures r.key != k ==> k in s.tables && s'.tables[k] == s.tables[k]
    ensures r.key == k && k in s.tables && s.connected ==>
              && s'.tables[k].listed == s.tables[k].listed
              && s'.tables[k].handed == s.tables[k].handed + if b == NOTHING then [] else [b]
    ensures k !in s.tables ==>
              IsListing(s'.tables[k].listed, d) && s'.tables[k].handed == if b == NOTHING then [] else [b]
    ensures s'.connected == s.connected && (k !in s.tables ==> s.connected)
  {
    if s.connected {
      var t, t', reset :| Handles(s, r, d, b, s', t, t', reset);
      if r.key !in s.tables {
        FreshOk(t.left, d);
      }
      AnsweredOk(t, r, t', reset, b);
    }
  }

  lemma {:induction false} HandedStays(tr: seq<State>, rs: seq<Request>, ds: seq<Directory>, bs: seq<Block>, i: nat,
                                       j: nat, k: Key)
    requires IsRun(tr, rs, ds, bs) && i <= j < |tr|
    requires forall m :: i <= m <= j ==> k in tr[m].tables
    ensures tr[i].tables[k].handed <= tr[j].tables[k].handed
    decreases j - i
  {
    if i == j {
    } else {
      HandedStays(tr, rs, ds, bs, i, j - 1, k);
      RunInv(tr, rs, ds, bs, j - 1);
      HandedGrows(tr[j - 1], rs[j - 1], ds[j - 1], bs[j - 1], tr[j], k);
    }
  }

  /**
   * In every run, whatever tasks, URLs and hosts ask in between: as long as a URL is not reset, no two
   * answers for it are the same block, whichever replicas they were taken from.
   */
  lemma NoBlockTwice(tr: seq<State>, rs: seq<Request>, ds: seq<Directory>, bs: seq<Block>, i: nat, j: nat)
    requires IsRun(tr, rs, ds, bs) && i < j < |bs| && rs[i].key == rs[j].key && bs[i] != NOTHING
    requires forall m :: i < m <= j ==> rs[i].key in tr[m].tables
    ensures bs[i] != bs[j]
  {
    var k := rs[i].key;
    RunInv(tr, rs, ds, bs, i);
    HandedGrows(tr[i], rs[i], ds[i], bs[i], tr[i + 1], k);
    HandedStays(tr, rs, ds, bs, i + 1, j, k);
    RunInv(tr, rs, ds, bs, j);
    if bs[j] != NOTHING {
      AnswerInPlace(tr[j], rs[j], ds[j], bs[j], tr[j + 1]);
    }
  }

  /** A block that is handed out leaves the table in place, and was not handed out before. */
  lemma AnswerInPlace(s: State, r: Request, d: Directory, b: Block, s': State)
    requires Inv(s) && Next(s, r, d, b, s') && b != NOTHING
    ensures r.key in s'.tables
    ensures r.key in s.tables ==> b !in s.tables[r.key].handed
  {
    var t, t', reset :| Handles(s, r, d, b, s', t, t', reset);
    if r.key !in s.tables {
      FreshOk(t.left, d);
    }
    AnsweredOk(t, r, t', reset, b);
  }

  /** In every state of every run, the blocks listed for a URL are those left and those handed out, and none is both. */
  lemma LeftAndHandedPartition(tr: seq<State>, rs: seq<Request>, ds: seq<Directory>, bs: seq<Block>, n: nat, k: Key,
                               b: Block)
    requires IsRun(tr, rs, ds, bs) && n < |tr| && k in tr[n].tables
    ensures var t := tr[n].tables[k];
            && (InListing(t.listed, b) <==> InListing(t.left, b) || b in t.handed)
            && !(InListing(t.left, b) && b in t.handed)
            && multiset(t.handed)[b] <= 1
  {
    RunInv(tr, rs, ds, bs, n);
    var t := tr[n].tables[k];
    if InListing(t.listed, b) {
      var h :| On(t.listed, h, b);
      LeftOrHanded(t, h, b);
    }
    if InListing(t.left, b) {
      var h :| On(t.left, h, b);
      assert On(t.listed, h, b);
    }
    AtMostOnce(t.handed, b);
  }

  lemma {:induction false} AtMostOnce(l: seq<Block>, b: Block)
    requires forall i, j :: 0 <= i < j < |l| ==> l[i] != l[j]
    ensures multiset(l)[b] <= 1
  {
    if l == [] {
    } else {
      var front := l[..|l| - 1];
      AtMostOnce(front, b);
      assert l == front + [l[|l| - 1]];
      assert b == l[|l| - 1] ==> b !in front;
    }
  }

  /**
   * An answer is empty exactly when every block listed for the URL has been handed out, on every host; the
   * first one for a URL, which lists it, exactly when there is no replica of any block.
   */
  lemma EmptyExactlyWhenAllHanded(tr: seq<State>, rs: seq<Request>, ds: seq<Directory>, bs: seq<Block>, n: nat)
    requires IsRun(tr, rs, ds, bs) && n < |bs| && tr[n].connected
    ensures rs[n].key in tr[n].tables ==>
              var t := tr[n].tables[rs[n].key];
              bs[n] == NOTHING <==> forall h, b :: On(t.listed, h, b) ==> b in t.handed && !InListing(t.left, b)
    ensures rs[n].key !in tr[n].tables ==> (bs[n] == NOTHING <==> forall h, b :: !Replica(ds[n], h, b))
  {
    RunInv(tr, rs, ds, bs, n);
    var t, t', reset :| Handles(tr[n], rs[n], ds[n], bs[n], tr[n + 1], t, t', reset);
    if rs[n].key !in tr[n].tables {
      FreshOk(t.left, ds[n]);
      forall h, b ensures On(t.listed, h, b) <==> Replica(ds[n], h, b) {
      }
    }
    EmptyExactlyWhen(t, rs[n], t', reset, bs[n]);
  }

  lemma EmptyExactlyWhen(t: Table, r: Request, t': Table, reset: bool, b: Block)
    requires TableOk(t) && Answered(t, r, t', reset, b)
    ensures b == NOTHING <==> forall h, b' :: On(t.listed, h, b') ==> b' in t.handed && !InListing(t.left, b')
    ensures t.handed == [] ==> (b == NOTHING <==> forall h, b' :: !On(t.listed, h, b'))
  {
    AnsweredOk(t, r, t', reset, b);
    if b == NOTHING {
      forall h, b' | On(t.listed, h, b') ensures b' in t.handed && !InListing(t.left, b') {
        assert InListing(t.listed, b');
        LeftOrHanded(t, h, b');
      }
    } else {
      var h :| On(t.listed, h, b);
    }
  }

  // ---------------------------------------------------------------- when a URL is listed again

  /** A URL is listed by request m and still in the table after request n - 1. */
  ghost predicate Listed(tr: seq<State>, rs: seq<Request>, k: Key, m: nat, n: nat) {
    && m < n <= |rs| < |tr|
    && rs[m].key == k && k !in tr[m].tables
    && forall i :: m < i <= n ==> k in tr[i].tables
  }

  /** How many of the requests from number m to n - 1 were for k and got nothing. */
  function Empties(rs: seq<Request>, bs: seq<Block>, k: Key, m: nat, n: nat): nat
    requires m <= n <= |rs| == |bs|
  {
    if n == m then 0 else Empties(rs, bs, k, m, n - 1) + if rs[n - 1].key == k && bs[n - 1] == NOTHING then 1 else 0
  }

  /** What one request makes of the refusals counted for a key. */
  lemma OneRefusal(s: State, r: Request, d: Directory, b: Block, s': State, k: Key)
    requires Inv(s) && Next(s, r, d, b, s') && s.connected
    ensures r.key != k ==> (k in s'.tables <==> k in s.tables) && (k in s.tables ==> s'.tables[k] == s.tables[k])
    ensures r.key == k ==>
              var refused := (if k in s.tables then s.tables[k].refused else 0) + if b == NOTHING then 1 else 0;
              && (k in s'.tables ==> s'.tables[k].refused == refused)
              && (k !in s'.tables <==> b == NOTHING && refused == r.alive)
  {
    var t, t', reset :| Handles(s, r, d, b, s', t, t', reset);
    if r.key !in s.tables {
      FreshOk(t.left, d);
    }
    AnsweredOk(t, r, t', reset, b);
  }

  lemma EmptiesStep(rs: seq<Request>, bs: seq<Block>, k: Key, m: nat, n: nat)
    requires m < n <= |rs| == |bs|
    ensures Empties(rs, bs, k, m, m) == 0
    ensures Empties(rs, bs, k, m, n) ==
              Empties(rs, bs, k, m, n - 1) + if rs[n - 1].key == k && bs[n - 1] == NOTHING then 1 else 0
  {
  }

  lemma {:induction false} RefusalsCounted(tr: seq<State>, rs: seq<Request>, ds: seq<Directory>, bs: seq<Block>,
                                           k: Key, m: nat, n: nat)
    requires IsRun(tr, rs, ds, bs) && Listed(tr, rs, k, m, n)
    ensures tr[n].connected && tr[n].tables[k].refused == Empties(rs, bs, k, m, n)
  {
    RunInv(tr, rs, ds, bs, n - 1);
    assert Next(tr[n - 1], rs[n - 1], ds[n - 1], bs[n - 1], tr[n]);
    EmptiesStep(rs, bs, k, m, n);
    hide Next, Inv, Empties;
    OneAnswer(tr[n - 1], rs[n - 1], ds[n - 1], bs[n - 1], tr[n], k);
    if n > m + 1 {
      RefusalsCounted(tr, rs, ds, bs, k, m, n - 1);
    }
    hide IsRun;
    OneRefusal(tr[n - 1], rs[n - 1], ds[n - 1], bs[n - 1], tr[n], k);
  }

  /**
   * In every run, a URL that was listed by request m goes with request n, which may be that one, if and only
   * if that asks for it, gets nothing, and with it as many requests for it have got nothing since the listing
   * as request n says there are workers alive.
   */
  lemma ResetExactlyWhen(tr: seq<State>, rs: seq<Request>, ds: seq<Directory>, bs: seq<Block>, k: Key, m: nat, n: nat)
    requires IsRun(tr, rs, ds, bs) && m <= n < |bs| && tr[m].connected
    requires if m == n then rs[m].key == k && k !in tr[m].tables else Listed(tr, rs, k, m, n)
    ensures k !in tr[n + 1].tables <==>
              rs[n].key == k && bs[n] == NOTHING && Empties(rs, bs, k, m, n + 1) == rs[n].alive
  {
    RunInv(tr, rs, ds, bs, n);
    if m < n {
      RefusalsCounted(tr, rs, ds, bs, k, m, n);
    } else {
      assert Empties(rs, bs, k, m, m) == 0;
    }
    OneRefusal(tr[n], rs[n], ds[n], bs[n], tr[n + 1], k);
  }

  lemma {:induction false} StaysConnected(tr: seq<State>, rs: seq<Request>, ds: seq<Directory>, bs: seq<Block>, n: nat)
    requires IsRun(tr, rs, ds, bs) && n < |tr|
    ensures tr[n].connected == tr[0].connected
  {
    if n == 0 {
    } else {
      StaysConnected(tr, rs, ds, bs, n - 1);
      assert Next(tr[n - 1], rs[n - 1], ds[n - 1], bs[n - 1], tr[n]);
    }
  }

  lemma {:induction false} StaysAway(tr: seq<State>, rs: seq<Request>, ds: seq<Directory>, bs: seq<Block>, k: Key,
                                     n: nat, q: nat)
    requires IsRun(tr, rs, ds, bs) && n <= q < |tr| && k !in tr[n].tables && tr[0].connected
    requires forall i :: n <= i < q ==> rs[i].key != k
    ensures k !in tr[q].tables
    decreases q - n
  {
    if n == q {
    } else {
      StaysAway(tr, rs, ds, bs, k, n, q - 1);
      RunInv(tr, rs, ds, bs, q - 1);
      StaysConnected(tr, rs, ds, bs, q - 1);
      OneRefusal(tr[q - 1], rs[q - 1], ds[q - 1], bs[q - 1], tr[q], k);
    }
  }

  /** Some replica of the block is under the URL. */
  ghost predicate InDirectory(d: Directory, b: Block) {
    exists h :: Replica(d, h, b)
  }

  ghost predicate AnyBlock(d: Directory) {
    exists b :: InDirectory(d, b)
  }

  ghost predicate AnyLocalBlock(d: Directory, host: string) {
    exists b :: Replica(d, host, b)
  }

  /**
   * The next request for a URL that has gone is answered from what the file system lists then: it gets one of
   * those blocks, one of its own host's if there is one, and nothing only if there is no block.
   */
  lemma ListedAgain(tr: seq<State>, rs: seq<Request>, ds: seq<Directory>, bs: seq<Block>, k: Key, n: nat, q: nat)
    requires IsRun(tr, rs, ds, bs) && n <= q < |bs| && tr[0].connected && k !in tr[n].tables && rs[q].key == k
    requires forall i :: n <= i < q ==> rs[i].key != k
    ensures k !in tr[q].tables
    ensures if AnyBlock(ds[q]) then InDirectory(ds[q], bs[q]) else bs[q] == NOTHING
    ensures AnyLocalBlock(ds[q], rs[q].host) ==> Replica(ds[q], rs[q].host, bs[q])
  {
    StaysAway(tr, rs, ds, bs, k, n, q);
    StaysConnected(tr, rs, ds, bs, q);
    RunInv(tr, rs, ds, bs, q);
    ListsAgain(tr[q], rs[q], ds[q], bs[q], tr[q + 1]);
  }

  lemma ListsAgain(s: State, r: Request, d: Directory, b: Block, s': State)
    requires Next(s, r, d, b, s') && s.connected && r.key !in s.tables
    ensures if AnyBlock(d) then InDirectory(d, b) else b == NOTHING
    ensures AnyLocalBlock(d, r.host) ==> Replica(d, r.host, b)
  {
    var t, t', reset :| Handles(s, r, d, b, s', t, t', reset);
    FromListing(t, r, d, t', reset, b);
  }

  lemma FromListing(t: Table, r: Request, d: Directory, t': Table, reset: bool, b: Block)
    requires t == Table(t.left, 0, t.left, []) && IsListing(t.left, d) && Answered(t, r, t', reset, b)
    ensures if AnyBlock(d) then InDirectory(d, b) else b == NOTHING
    ensures AnyLocalBlock(d, r.host) ==> Replica(d, r.host, b)
  {
    FreshOk(t.left, d);
    AnsweredOk(t, r, t', reset, b);
    forall b' ensures InListing(t.left, b') <==> InDirectory(d, b') {
      if h :| On(t.left, h, b') {
        assert Replica(d, h, b');
      }
      if h :| Replica(d, h, b') {
        assert On(t.left, h, b');
      }
    }
    if AnyLocalBlock(d, r.host) {
      var b' :| Replica(d, r.host, b');
      assert On(t.left, r.host, b');
      LocalFirst(t, r, t', reset, b);
    }
  }

  // ---------------------------------------------------------------- the coordinator

  function Tables(left: map<Key, Locality>, refused: map<Key, nat>, listed: map<Key, Locality>,
                  handed: map<Key, seq<Block>>): map<Key, Table>
    requires left.Keys <= refused.Keys && left.Keys <= listed.Keys && left.Keys <= handed.Keys
  {
    map k | k in left :: Table(left[k], refused[k], listed[k], handed[k])
  }

  lemma TablesPut(left: map<Key, Locality>, refused: map<Key, nat>, listed: map<Key, Locality>,
                  handed: map<Key, seq<Block>>, k: Key, t: Table)
    requires left.Keys <= refused.Keys && left.Keys <= listed.Keys && left.Keys <= handed.Keys
    ensures Tables(left[k := t.left], refused[k := t.refused], listed[k := t.listed], handed[k := t.handed]) ==
            Tables(left, refused, listed, handed)[k := t]
  {
  }

  lemma TablesErase(left: map<Key, Locality>, refused: map<Key, nat>, listed: map<Key, Locality>,
                    handed: map<Key, seq<Block>>, k: Key, n: nat)
    requires left.Keys <= refused.Keys && left.Keys <= listed.Keys && left.Keys <= handed.Keys
    ensures Tables(left - {k}, refused[k := n], listed, handed) == Tables(left, refused, listed, handed) - {k}
  {
  }

  class HDFSBlockAssigner {
    /** Whether there is a connection to the file system. */
    const fs: bool
    var numWorkersAlive: nat
    /** The blocks left, and the refusals, for each task and URL. */
    var filesLocality: map<Key, Locality>
    var finish: map<Key, nat>
    ghost var listed: map<Key, Locality>
    ghost var handed: map<Key, seq<Block>>

    ghost predicate Valid()
      reads this
    {
      filesLocality.Keys <= finish.Keys && filesLocality.Keys <= listed.Keys && filesLocality.Keys <= handed.Keys
    }

    ghost function Value(): State
      requires Valid()
      reads this
    {
      State(fs, Tables(filesLocality, finish, listed, handed))
    }

    constructor (fs: bool)
      ensures Valid() && Value() == State(fs, map[]) && this.fs == fs
    {
      this.fs := fs;
      numWorkersAlive, filesLocality, finish, listed, handed := 0, map[], map[], map[], map[];
    }

    /** browse_hdfs(): every block of every file, under each of its hosts. */
    method Browse(d: Directory) returns (l: Locality)
      requires ValidDirectory(d)
      ensures IsListing(l, d)
    {
      l := map[];
      for i := 0 to |d.files|
        invariant forall h, b :: On(l, h, b) <==> exists i' :: 0 <= i' < i && Stored(d.files[i'], d.locate, h, b)
      {
        ghost var before := l;
        if d.files[i].isFile {
          l := BrowseFile(d.files[i], d.locate, l);
        }
        assert forall h, b :: On(l, h, b) <==> On(before, h, b) || Stored(d.files[i], d.locate, h, b);
      }
    }

    static method BrowseFile(f: FileInfo, locate: (string, nat) -> seq<string>, before: Locality) returns (l: Locality)
      requires f.isFile && f.blockSize > 0
      ensures forall h, b :: On(l, h, b) <==> On(before, h, b) || Stored(f, locate, h, b)
    {
      l := before;
      var k := 0;
      while k < f.size
        invariant IsStart(k, f.blockSize)
        invariant forall h, b :: On(l, h, b) <==> On(before, h, b) || (Stored(f, locate, h, b) && b.offset < k)
      {
        ghost var last := l;
        l := InsertReplicas(l, Block(f.name + [NUL], k), locate(f.name, k));
        forall h, b ensures On(l, h, b) <==>
            On(before, h, b) || (Stored(f, locate, h, b) && b.offset < k + f.blockSize) {
          if Stored(f, locate, h, b) && b.offset < k + f.blockSize {
            OnlyStart(k, f.blockSize, b.offset);
          }
          assert On(l, h, b) <==> On(last, h, b) || (h in locate(f.name, k) && b == Block(f.name + [NUL], k));
        }
        k := k + f.blockSize;
      }
    }

    static method InsertReplicas(before: Locality, b: Block, hosts: seq<string>) returns (l: Locality)
      ensures forall h, b' :: On(l, h, b') <==> On(before, h, b') || (h in hosts && b' == b)
    {
      l := before;
      for j := 0 to |hosts|
        invariant forall h, b' :: On(l, h, b') <==> On(before, h, b') || (h in hosts[..j] && b' == b)
      {
        var h := hosts[j];
        ghost var last := l;
        assert hosts[..j + 1] == hosts[..j] + [h];
        l := l[h := (if h in l then l[h] else {}) + {b}];
        forall h', b' ensures On(l, h', b') <==> On(before, h', b') || (h' in hosts[..j + 1] && b' == b) {
          assert On(l, h', b') <==> On(last, h', b') || (h' == h && b' == b);
        }
      }
      assert hosts[..|hosts|] == hosts;
    }

    /** The loop over all hosts; found is false when none of them has a block left. */
    static method SelectHost(l: Locality) returns (found: bool, selected: string)
      ensures found <==> AnyLeft(l)
      ensures found ==> selected in l && l[selected] != {}
    {
      found, selected := false, "";
      var hosts := l.Keys;
      while hosts != {}
        invariant hosts <= l.Keys && forall h :: h in l && h !in hosts ==> l[h] == {}
        decreases |hosts|
      {
        var h :| h in hosts;
        if l[h] != {} {
          return true, h;
        }
        hosts := hosts - {h};
      }
    }

    /** The loops that remove all replicas of a block. */
    static method RemoveReplicas(before: Locality, b: Block) returns (l: Locality)
      ensures l == WithoutBlock(before, b)
    {
      l := before;
      var hosts := before.Keys;
      while hosts != {}
        invariant hosts <= before.Keys == l.Keys
        invariant forall h :: h in before ==> l[h] == if h in hosts then before[h] else before[h] - {b}
        decreases |hosts|
      {
        var h :| h in hosts;
        if b in l[h] {
          l := l[h := l[h] - {b}];
        }
        hosts := hosts - {h};
      }
    }

    /** The first part of answer(): the listing, when there is none. */
    method List(k: Key, d: Directory)
      requires Valid() && ValidDirectory(d)
      modifies this`filesLocality, this`finish, this`listed, this`handed
      ensures Valid() && k in filesLocality
      ensures var t := Value().tables[k];
              && Value() == old(Value()).(tables := old(Value()).tables[k := t])
              && if k in old(filesLocality) then t == old(Value()).tables[k]
                 else t == Table(t.left, 0, t.left, []) && IsListing(t.left, d)
    {
      if k !in filesLocality {
        var listing := Browse(d);
        filesLocality, finish := filesLocality[k := listing], finish[k := 0];
        listed, handed := listed[k := listing], handed[k := []];
        TablesPut(old(filesLocality), old(finish), old(listed), old(handed), k, Table(listing, 0, listing, []));
      } else {
        assert Value().tables[k := Value().tables[k]] == Value().tables;
      }
    }

    /** An empty answer; when it is the last worker's, the URL is reset. */
    method Refuse(k: Key, left: Locality) returns (ghost reset: bool)
      requires Valid() && k in filesLocality
      modifies this`filesLocality, this`finish
      ensures Valid() && reset == (old(finish[k]) + 1 == numWorkersAlive)
      ensures var t := old(Value().tables[k]).(left := left, refused := old(finish[k]) + 1);
              Value() ==
                  old(Value()).(tables := if reset then old(Value()).tables - {k} else old(Value()).tables[k := t])
    {
      ghost var n := finish[k] + 1;
      TablesPut(filesLocality, finish, listed, handed, k, Table(left, n, listed[k], handed[k]));
      TablesErase(filesLocality, finish, listed, handed, k, n);
      assert listed[k := listed[k]] == listed && handed[k := handed[k]] == handed;
      assert filesLocality[k := left] - {k} == filesLocality - {k};
      filesLocality := filesLocality[k := left];
      finish := finish[k := finish[k] + 1];
      reset := finish[k] == numWorkersAlive;
      if finish[k] == numWorkersAlive {
        filesLocality := filesLocality - {k};
      }
    }

    /** The last part of answer(). */
    method HandOut(k: Key, left: Locality, b: Block)
      requires Valid() && k in filesLocality
      modifies this`filesLocality, this`handed
      ensures Valid()
      ensures var t := old(Value().tables[k]);
              var t' := t.(left := WithoutBlock(left, b), handed := t.handed + [b]);
              Value() == old(Value()).(tables := old(Value()).tables[k := t'])
    {
      var rest := RemoveReplicas(left, b);
      TablesPut(filesLocality, finish, listed, handed, k, Table(rest, finish[k], listed[k], handed[k] + [b]));
      assert listed[k := listed[k]] == listed && finish[k := finish[k]] == finish;
      filesLocality := filesLocality[k := rest];
      handed := handed[k := handed[k] + [b]];
    }

    /** handle_block_request() and answer(); d is what the file system lists at this moment. */
    method Answer(r: Request, d: Directory) returns (ret: Block)
      requires Valid() && ValidDirectory(d)
      modifies this
      ensures Valid() && numWorkersAlive == r.alive && Next(old(Value()), r, d, ret, Value())
    {
      numWorkersAlive := r.alive;
      ret := NOTHING;
      if !fs {
        return;
      }
      ghost var s0 := Value();
      List(r.key, d);
      ghost var t := Value().tables[r.key];
      var left := WithHost(filesLocality[r.key], r.host);
      var found, selected := true, r.host;
      if left[r.host] == {} {
        found, selected := SelectHost(left);
      }
      assert found <==> AnyLeft(left);
      if found {
        ret :| ret in left[selected];
        assert On(left, selected, ret);
        HandOut(r.key, left, ret);
        ghost var t' := t.(left := WithoutBlock(left, ret), handed := t.handed + [ret]);
        ListedAndAnswered(s0, r, d, ret, Value(), t, t', false);
      } else {
        ghost var reset := Refuse(r.key, left);
        ListedAndAnswered(s0, r, d, ret, Value(), t, t.(left := left, refused := t.refused + 1), reset);
      }
    }
  }

  /** A table that is listed first if need be, and then answers. */
  lemma ListedAndAnswered(s: State, r: Request, d: Directory, b: Block, s': State, t: Table, t': Table, reset: bool)
    requires s.connected && Answered(t, r, t', reset, b)
    requires if r.key in s.tables then t == s.tables[r.key]
             else t == Table(t.left, 0, t.left, []) && IsListing(t.left, d)
    requires var listed := s.tables[r.key := t];
             s' == s.(tables := if reset then listed - {r.key} else listed[r.key := t'])
    ensures Next(s, r, d, b, s')
  {
    var m := s.tables;
    assert m[r.key := t][r.key := t'] == m[r.key := t'] && m[r.key := t] - {r.key} == m - {r.key};
    assert Handles(s, r, d, b, s', t, t', reset);
  }

  lemma {:induction false} OnlyStart(k: nat, size: nat, offset: nat)
    requires size > 0 && IsStart(k, size) && IsStart(offset, size) && offset < k + size
    ensures offset <= k
  {
    if offset == 0 || k == 0 {
    } else {
      OnlyStart(k - size, size, offset - size);
    }
  }
}
