/** kernel/log.c over the buffer cache: log_write, commit and recovery, with the
    sequence of disk writes each makes. */
module Log {
  import opened Blocks
  import opened BufList
  import opened Bio

  /** write_log: the cached contents of each logged block, to the log area. */
  function LogWrites(img: Image, start: nat, lh: seq<nat>): (ws: seq<Write>)
    requires forall i :: 0 <= i < |lh| ==> lh[i] < |img|
    ensures |ws| == |lh|
  {
    seq(|lh|, i requires 0 <= i < |lh| => Write(start + 1 + i, img[lh[i]]))
  }

  /** install_trans: the log blocks, to their home locations. */
  function InstallWrites(img: Image, start: nat, lh: seq<nat>): (ws: seq<Write>)
    requires start + |lh| < |img|
    ensures |ws| == |lh|
  {
    seq(|lh|, i requires 0 <= i < |lh| => Write(lh[i], img[start + 1 + i]))
  }

  ghost predicate OnDisk(ws: seq<Write>, size: nat) {
    forall i :: 0 <= i < |ws| ==> ws[i].bno < size
  }

  /** The image after a sequence of block writes. */
  ghost function Apply(img: Image, ws: seq<Write>): (r: Image)
    requires OnDisk(ws, |img|)
    ensures |r| == |img|
  {
    if ws == [] then img
    else
      var w := ws[|ws| - 1];
      Apply(img, ws[..|ws| - 1])[w.bno := w.data]
  }

  /** The disk has changed by exactly the writes ws, in this order. */
  ghost predicate Wrote(disk: Image, trace: seq<Write>, ws: seq<Write>, disk': Image, trace': seq<Write>) {
    OnDisk(ws, |disk|) && trace' == trace + ws && disk' == Apply(disk, ws)
  }

  lemma WroteOne(disk: Image, trace: seq<Write>, ws: seq<Write>, disk': Image, trace': seq<Write>, bno: nat,
                 data: Block)
    requires Wrote(disk, trace, ws, disk', trace') && bno < |disk'|
    ensures Wrote(disk, trace, ws + [Write(bno, data)], disk'[bno := data], trace' + [Write(bno, data)])
  {
    assert (ws + [Write(bno, data)])[..|ws|] == ws;
  }

  lemma {:induction false} WroteMore(disk: Image, trace: seq<Write>, ws: seq<Write>, disk': Image, trace': seq<Write>,
                  ws': seq<Write>, disk'': Image, trace'': seq<Write>)
    requires Wrote(disk, trace, ws, disk', trace') && Wrote(disk', trace', ws', disk'', trace'')
    ensures Wrote(disk, trace, ws + ws', disk'', trace'')
    decreases |ws'|
  {
    if ws' == [] {
      assert ws + ws' == ws;
    } else {
      var k := |ws'| - 1;
      var w := ws'[k];
      var mid := Apply(disk', ws'[..k]);
      WroteMore(disk, trace, ws, disk', trace', ws'[..k], mid, trace' + ws'[..k]);
      WroteOne(disk, trace, ws + ws'[..k], mid, trace' + ws'[..k], w.bno, w.data);
      assert Write(w.bno, w.data) == w && ws'[..k] + [w] == ws';
      assert ws + ws'[..k] + [w] == ws + ws';
      assert trace' + ws'[..k] + [w] == trace' + ws';
    }
  }

  /** A machine's block storage: disk, flat view of the cache, and writes so far. */
  datatype Store = Store(disk: Image, latest: Image, trace: seq<Write>)

  /** One block write through the cache. */
  ghost predicate Wrote1(s: Store, bno: nat, data: Block, s': Store) {
    && bno < |s.disk| == |s.latest|
    && s' == Store(s.disk[bno := data], s.latest[bno := data], s.trace + [Write(bno, data)])
  }

  /** What write_log has done after k blocks: copied them to the log, changed nothing else. */
  ghost predicate LogProgress(s: Store, start: nat, lh: seq<nat>, k: nat, s': Store) {
    && start + LOGBLOCKS < |s.latest| == |s.disk| && HomeBlocks(start, |s.latest|, lh) && k <= |lh|
    && SameHome(start, s'.latest, s.latest) && s'.latest[start] == s.latest[start]
    && SameHome(start, s'.disk, s.disk) && s'.disk[start] == s.disk[start]
    && (forall i :: 0 <= i < k ==> s'.latest[start + 1 + i] == s.latest[lh[i]])
    && Wrote(s.disk, s.trace, LogWrites(s.latest, start, lh[..k]), s'.disk, s'.trace)
  }

  lemma LogProgressNone(s: Store, start: nat, lh: seq<nat>)
    requires start + LOGBLOCKS < |s.latest| == |s.disk| && HomeBlocks(start, |s.latest|, lh)
    ensures LogProgress(s, start, lh, 0, s)
  {
    assert LogWrites(s.latest, start, lh[..0]) == [];
  }

  lemma LogProgressOne(s: Store, start: nat, lh: seq<nat>, k: nat, s': Store, s'': Store)
    requires LogProgress(s, start, lh, k, s') && k < |lh| && lh[k] < |s'.latest|
    requires Wrote1(s', start + 1 + k, s'.latest[lh[k]], s'')
    ensures LogProgress(s, start, lh, k + 1, s'')
  {
    hide Wrote, LogWrites;
    LogWritesMore(s.latest, start, lh, k);
    WroteOne(s.disk, s.trace, LogWrites(s.latest, start, lh[..k]), s'.disk, s'.trace, start + 1 + k, s'.latest[lh[k]]);
  }

  lemma LogWritesMore(img: Image, start: nat, lh: seq<nat>, k: nat)
    requires k < |lh| && forall i :: 0 <= i < |lh| ==> lh[i] < |img|
    ensures LogWrites(img, start, lh[..k + 1]) == LogWrites(img, start, lh[..k]) + [Write(start + 1 + k, img[lh[k]])]
  {
  }

  /** What install_trans has done after k blocks: copied them home, changed nothing else. */
  ghost predicate InstallProgress(s: Store, start: nat, lh: seq<nat>, k: nat, s': Store) {
    && start + LOGBLOCKS < |s.latest| == |s.disk| && HomeBlocks(start, |s.latest|, lh) && k <= |lh|
    && |s'.latest| == |s.latest|
    && (forall b :: 0 <= b < |s.latest| && b !in lh[..k] ==> s'.latest[b] == s.latest[b])
    && (forall i :: 0 <= i < k ==> s'.latest[lh[i]] == s.latest[start + 1 + i])
    && Wrote(s.disk, s.trace, InstallWrites(s.latest, start, lh[..k]), s'.disk, s'.trace)
  }

  lemma InstallProgressNone(s: Store, start: nat, lh: seq<nat>)
    requires start + LOGBLOCKS < |s.latest| == |s.disk| && HomeBlocks(start, |s.latest|, lh)
    ensures InstallProgress(s, start, lh, 0, s)
  {
    assert InstallWrites(s.latest, start, lh[..0]) == [];
  }

  lemma InstallProgressOne(s: Store, start: nat, lh: seq<nat>, k: nat, s': Store, s'': Store)
    requires InstallProgress(s, start, lh, k, s') && k < |lh| && start + 1 + k < |s'.latest|
    requires Wrote1(s', lh[k], s'.latest[start + 1 + k], s'')
    ensures InstallProgress(s, start, lh, k + 1, s'')
  {
    hide Wrote, InstallWrites;
    assert start + 1 + k !in lh[..k];
    var data := s.latest[start + 1 + k];
    InstallWritesMore(s.latest, start, lh, k);
    WroteOne(s.disk, s.trace, InstallWrites(s.latest, start, lh[..k]), s'.disk, s'.trace, lh[k], data);
    NotInstalled(s.latest, lh, k, s'.latest, data);
    InstalledMore(s.latest, start, lh, k, s'.latest);
  }

  lemma InstallWritesMore(img: Image, start: nat, lh: seq<nat>, k: nat)
    requires k < |lh| && start + |lh| < |img|
    ensures InstallWrites(img, start, lh[..k + 1]) == InstallWrites(img, start, lh[..k])
      + [Write(lh[k], img[start + 1 + k])]
  {
  }

  /** The contents side of one more block: what has not been installed. */
  lemma NotInstalled(img: Image, lh: seq<nat>, k: nat, img': Image, data: Block)
    requires k < |lh| && |img| == |img'| && lh[k] < |img|
    requires forall b :: 0 <= b < |img| && b !in lh[..k] ==> img'[b] == img[b]
    ensures forall b :: 0 <= b < |img| && b !in lh[..k + 1] ==> img'[lh[k] := data][b] == img[b]
  {
    forall b | 0 <= b < |img| && b !in lh[..k + 1]
      ensures img'[lh[k] := data][b] == img[b]
    {
      InPrefix(lh, k, b);
    }
  }

  /** And what has. */
  lemma InstalledMore(img: Image, start: nat, lh: seq<nat>, k: nat, img': Image)
    requires k < |lh| && start + |lh| < |img| == |img'| && Distinct(lh)
    requires forall i :: 0 <= i < |lh| ==> lh[i] < |img|
    requires forall i :: 0 <= i < k ==> img'[lh[i]] == img[start + 1 + i]
    ensures forall i :: 0 <= i < k + 1 ==> img'[lh[k] := img[start + 1 + k]][lh[i]] == img[start + 1 + i]
  {
    forall i | 0 <= i < k
      ensures img'[lh[k] := img[start + 1 + k]][lh[i]] == img[start + 1 + i]
    {
      assert lh[i] != lh[k];
    }
  }

  lemma InPrefix(lh: seq<nat>, k: nat, b: nat)
    requires k < |lh|
    ensures b in lh[..k + 1] <==> b in lh[..k] || b == lh[k]
  {
    assert lh[..k + 1] == lh[..k] + [lh[k]];
  }

  /** The contents of each logged block, to its home location. */
  function HomeWrites(img: Image, lh: seq<nat>): (ws: seq<Write>)
    requires forall i :: 0 <= i < |lh| ==> lh[i] < |img|
    ensures |ws| == |lh|
  {
    seq(|lh|, i requires 0 <= i < |lh| => Write(lh[i], img[lh[i]]))
  }

  /** Every disk write of commit(), in order: log blocks, header, home blocks,
      empty header. */
  function CommitWrites(img: Image, start: nat, lh: seq<nat>): (ws: seq<Write>)
    requires start < |img| && HomeBlocks(start, |img|, lh)
  {
    if lh == [] then []
    else
      var h := HeaderBlock(img[start], lh);
      LogWrites(img, start, lh) + [Write(start, h)] + HomeWrites(img, lh) + [Write(start, HeaderBlock(h, []))]
  }

  lemma Wrote1IsWrote(s: Store, bno: nat, data: Block, s': Store)
    requires Wrote1(s, bno, data, s')
    ensures Wrote(s.disk, s.trace, [Write(bno, data)], s'.disk, s'.trace)
  {
    assert Apply(s.disk, []) == s.disk;
    assert [Write(bno, data)][..0] == [];
  }

  /** write_log, write_head, install_trans and write_head together. */
  lemma CommitComposes(s0: Store, start: nat, lh: seq<nat>, s1: Store, s2: Store, s3: Store, s4: Store)
    requires lh != [] && LogProgress(s0, start, lh, |lh|, s1)
    requires Wrote1(s1, start, HeaderBlock(s1.latest[start], lh), s2)
    requires InstallProgress(s2, start, lh, |lh|, s3)
    requires Wrote1(s3, start, HeaderBlock(s3.latest[start], []), s4)
    ensures Wrote(s0.disk, s0.trace, CommitWrites(s0.latest, start, lh), s4.disk, s4.trace)
    ensures SameHome(start, s4.latest, s0.latest) && HeaderCount(s4.latest, start) == 0
  {
    hide Wrote, LogWrites, InstallWrites, HomeWrites, HeaderBlock;
    assert lh[..|lh|] == lh;
    var h := HeaderBlock(s0.latest[start], lh);
    InstallsCached(s0, start, lh, s1, s2);
    assert start !in lh[..|lh|];
    var w1, w3 := LogWrites(s0.latest, start, lh), HomeWrites(s0.latest, lh);
    Wrote1IsWrote(s1, start, h, s2);
    Wrote1IsWrote(s3, start, HeaderBlock(h, []), s4);
    InstalledHome(s0, start, lh, s1, s2, s3);
    hide LogProgress, InstallProgress;
    WroteFour(s0, w1, s1, [Write(start, h)], s2, w3, s3, [Write(start, HeaderBlock(h, []))], s4);
  }

  /** A commit that stopped for lack of a buffer has made its first k writes only, and all
      of them into the log area. */
  lemma CommitStarted(s0: Store, start: nat, lh: seq<nat>, k: nat, s1: Store)
    requires lh != [] && LogProgress(s0, start, lh, k, s1)
    ensures k <= |CommitWrites(s0.latest, start, lh)|
    ensures Wrote(s0.disk, s0.trace, CommitWrites(s0.latest, start, lh)[..k], s1.disk, s1.trace)
    ensures SameHome(start, s1.disk, s0.disk) && s1.disk[start] == s0.disk[start]
  {
    assert LogWrites(s0.latest, start, lh[..k]) == CommitWrites(s0.latest, start, lh)[..k];
  }

  lemma WroteFour(s0: Store, w1: seq<Write>, s1: Store, w2: seq<Write>, s2: Store, w3: seq<Write>, s3: Store,
                  w4: seq<Write>, s4: Store)
    requires Wrote(s0.disk, s0.trace, w1, s1.disk, s1.trace) && Wrote(s1.disk, s1.trace, w2, s2.disk, s2.trace)
    requires Wrote(s2.disk, s2.trace, w3, s3.disk, s3.trace) && Wrote(s3.disk, s3.trace, w4, s4.disk, s4.trace)
    ensures Wrote(s0.disk, s0.trace, w1 + w2 + w3 + w4, s4.disk, s4.trace)
  {
    hide Wrote;
    WroteMore(s0.disk, s0.trace, w1, s1.disk, s1.trace, w2, s2.disk, s2.trace);
    WroteMore(s0.disk, s0.trace, w1 + w2, s2.disk, s2.trace, w3, s3.disk, s3.trace);
    WroteMore(s0.disk, s0.trace, w1 + w2 + w3, s3.disk, s3.trace, w4, s4.disk, s4.trace);
  }

  /** What install_trans copies home is what write_log found in the cache. */
  lemma InstallsCached(s0: Store, start: nat, lh: seq<nat>, s1: Store, s2: Store)
    requires LogProgress(s0, start, lh, |lh|, s1) && Wrote1(s1, start, HeaderBlock(s1.latest[start], lh), s2)
    ensures InstallWrites(s2.latest, start, lh) == HomeWrites(s0.latest, lh)
    ensures s2.latest[start] == HeaderBlock(s0.latest[start], lh)
  {
    hide Wrote, LogWrites, HeaderBlock;
  }

  lemma InstalledHome(s0: Store, start: nat, lh: seq<nat>, s1: Store, s2: Store, s3: Store)
    requires LogProgress(s0, start, lh, |lh|, s1)
    requires Wrote1(s1, start, HeaderBlock(s1.latest[start], lh), s2)
    requires InstallProgress(s2, start, lh, |lh|, s3)
    ensures SameHome(start, s3.latest, s0.latest)
  {
    forall b | 0 <= b < |s0.latest| && !InLog(start, b)
      ensures s3.latest[b] == s0.latest[b]
    {
      if b in lh {
        var i :| 0 <= i < |lh| && lh[i] == b;
        assert s3.latest[lh[i]] == s2.latest[start + 1 + i];
      }
    }
  }

  lemma CommitNothing(s: Store, start: nat)
    requires start < |s.latest|
    ensures HomeBlocks(start, |s.latest|, []) && CommitWrites(s.latest, start, []) == []
    ensures Wrote(s.disk, s.trace, [], s.disk, s.trace)
  {
  }

  /** Every disk write of recover_from_log on the image d. */
  function RecoverWrites(d: Image, start: nat): (ws: seq<Write>)
    requires LogReadable(d, start)
  {
    InstallWrites(d, start, HeaderBlocks(d, start)) + [Write(start, HeaderBlock(d[start], []))]
  }

  /** Recovery restores whatever image the log holds. */
  lemma RecoverComposes(s0: Store, start: nat, s1: Store, s2: Store)
    requires LogReadable(s0.disk, start) && s0.latest == s0.disk
    requires var lh := HeaderBlocks(s0.disk, start); InstallProgress(s0, start, lh, |lh|, s1)
    requires Wrote1(s1, start, HeaderBlock(s1.latest[start], []), s2)
    ensures Wrote(s0.disk, s0.trace, RecoverWrites(s0.disk, start), s2.disk, s2.trace)
    ensures forall img :: RecoversTo(s0.disk, start, img) ==> SameHome(start, s2.latest, img)
    ensures LogReadable(s2.latest, start) && HeaderCount(s2.latest, start) == 0
  {
    var lh := HeaderBlocks(s0.disk, start);
    assert lh[..|lh|] == lh;
    var w1, w2 := InstallWrites(s0.disk, start, lh), [Write(start, HeaderBlock(s0.disk[start], []))];
    assert s1.latest[start] == s0.latest[start];
    Wrote1IsWrote(s1, start, HeaderBlock(s0.disk[start], []), s2);
    WroteMore(s0.disk, s0.trace, w1, s1.disk, s1.trace, w2, s2.disk, s2.trace);
    forall img | RecoversTo(s0.disk, start, img)
      ensures SameHome(start, s2.latest, img)
    {
      ReplayedImage(s0, start, s1, img);
    }
  }

  lemma ReplayedImage(s0: Store, start: nat, s1: Store, img: Image)
    requires LogReadable(s0.disk, start) && s0.latest == s0.disk && RecoversTo(s0.disk, start, img)
    requires var lh := HeaderBlocks(s0.disk, start); InstallProgress(s0, start, lh, |lh|, s1)
    ensures SameHome(start, s1.latest, img)
  {
    var lh := HeaderBlocks(s0.disk, start);
    assert lh[..|lh|] == lh;
    forall b | 0 <= b < |img| && !InLog(start, b)
      ensures s1.latest[b] == img[b]
    {
      if b in lh {
        var i :| 0 <= i < |lh| && lh[i] == b;
        assert s1.latest[lh[i]] == s0.latest[start + 1 + i];
      }
    }
  }

  /** The blocks not yet home are those of the header from position k on. */
  ghost predicate Recorded(lh: seq<nat>, k: nat, dirty: map<nat, nat>) {
    && k <= |lh|
    && (forall i :: k <= i < |lh| ==> lh[i] in dirty)
    && (forall b :: b in dirty ==> b in lh[k..])
  }

  /** Each of them pins its buffer once, and nothing else is pinned. */
  ghost predicate PinsMatch(pins: seq<nat>, dirty: map<nat, nat>) {
    && |pins| == NBUF
    && (forall k :: k in dirty ==> dirty[k] < NBUF && pins[dirty[k]] == 1)
    && (forall i :: 0 <= i < NBUF && pins[i] != 0 ==> exists k :: k in dirty && dirty[k] == i)
  }

  /** The k-th log block and its home block. */
  lemma PairFacts(start: nat, size: nat, lh: seq<nat>, dirty: map<nat, nat>, k: nat, j: nat)
    requires start + LOGBLOCKS < size && HomeBlocks(start, size, lh) && j <= k < |lh| && Recorded(lh, j, dirty)
    ensures start + 1 + k != lh[k] && start + 1 + k < size && lh[k] < size
    ensures lh[k] in dirty && start + 1 + k !in dirty
  {
  }

  lemma InstallPair(start: nat, size: nat, lh: seq<nat>, dirty: map<nat, nat>, k: nat, recovering: bool)
    requires start + LOGBLOCKS < size && HomeBlocks(start, size, lh) && k < |lh|
    requires if recovering then dirty == map[] else Recorded(lh, k, dirty)
    ensures start + 1 + k != lh[k] && start + 1 + k < size && lh[k] < size && start + 1 + k !in dirty
    ensures if recovering then dirty - {lh[k]} == map[] else lh[k] in dirty && Recorded(lh, k + 1, dirty - {lh[k]})
  {
    if !recovering {
      RecordedNext(lh, k, dirty);
    }
  }

  lemma RecordedNext(lh: seq<nat>, k: nat, dirty: map<nat, nat>)
    requires Recorded(lh, k, dirty) && k < |lh| && forall i, j :: 0 <= i < j < |lh| ==> lh[i] != lh[j]
    ensures Recorded(lh, k + 1, dirty - {lh[k]})
  {
    assert lh[k..] == [lh[k]] + lh[k + 1..];
  }

  lemma HeaderClean(start: nat, size: nat, lh: seq<nat>, dirty: map<nat, nat>, k: nat)
    requires HomeBlocks(start, size, lh) && Recorded(lh, k, dirty)
    ensures start !in dirty && forall i :: 0 <= i < |lh| ==> lh[i] < 0x8000_0000
  {
  }

  lemma AllInstalled(lh: seq<nat>, dirty: map<nat, nat>)
    requires Recorded(lh, |lh|, dirty)
    ensures dirty == map[]
  {
    assert lh[|lh|..] == [];
    assert forall k :: k in dirty ==> false;
  }

  lemma NothingPending(start: nat, size: nat, dirty: map<nat, nat>)
    requires dirty == map[]
    ensures HomeBlocks(start, size, []) && Recorded([], 0, dirty)
  {
  }

  lemma HeaderReadable(d: Image, start: nat)
    requires LogReadable(d, start)
    ensures HeaderCount(d, start) <= LOGBLOCKS && HomeBlocks(start, |d|, HeaderBlocks(d, start))
    ensures |HeaderBlocks(d, start)| == HeaderCount(d, start)
  {
  }

  lemma HomeAppend(start: nat, size: nat, lh: seq<nat>, k: nat)
    requires HomeBlocks(start, size, lh) && |lh| < LOGBLOCKS
    requires k < size < 0x8000_0000 && !InLog(start, k) && k !in lh
    ensures HomeBlocks(start, size, lh + [k])
  {
  }

  lemma RecordAppend(lh: seq<nat>, dirty: map<nat, nat>, k: nat, b: nat)
    requires Recorded(lh, 0, dirty)
    ensures Recorded(lh + [k], 0, dirty[k := b])
  {
    assert lh[0..] == lh && (lh + [k])[0..] == lh + [k];
  }

  lemma RecordAbsorb(lh: seq<nat>, dirty: map<nat, nat>, k: nat, b: nat)
    requires Recorded(lh, 0, dirty) && k in lh
    ensures k in dirty && dirty[k := b].Keys == dirty.Keys && Recorded(lh, 0, dirty[k := b])
  {
    assert lh[0..] == lh;
  }

  /** The one buffer of a dirty block is the one the log has pinned. */
  lemma DirtyBuffer(bs: seq<Buf>, disk: Image, latest: Image, pins: seq<nat>, dirty: map<nat, nat>, b: nat)
    requires |bs| == NBUF + 1 && |pins| == NBUF && Unique(bs) && Coherent(bs, disk, latest, pins, dirty)
    requires b < NBUF && bs[b].dev == ROOTDEV && PinsMatch(pins, dirty)
    ensures bs[b].blockno in dirty ==> dirty[bs[b].blockno] == b && pins[b] == 1
    ensures bs[b].blockno !in dirty ==> pins[b] == 0
  {
    if pins[b] != 0 {
      var k :| k in dirty && dirty[k] == b;
      assert bs[dirty[k]].blockno == k;
    }
  }

  lemma DirtyCached(bs: seq<Buf>, disk: Image, latest: Image, pins: seq<nat>, dirty: map<nat, nat>, k: nat)
    requires |bs| == NBUF + 1 && |pins| == NBUF && Coherent(bs, disk, latest, pins, dirty) && k in dirty
    ensures exists i :: 0 <= i < NBUF && Holds(bs[i], ROOTDEV, k)
  {
    assert Holds(bs[dirty[k]], ROOTDEV, k);
  }

  lemma DirtyInjective(bs: seq<Buf>, disk: Image, latest: Image, pins: seq<nat>, dirty: map<nat, nat>, k: nat)
    requires |bs| == NBUF + 1 && |pins| == NBUF && Coherent(bs, disk, latest, pins, dirty) && k in dirty
    ensures forall k' :: k' in dirty && k' != k ==> dirty[k'] != dirty[k]
  {
  }

  lemma PinRemove(pins: seq<nat>, dirty: map<nat, nat>, k: nat)
    requires PinsMatch(pins, dirty) && k in dirty
    requires forall k' :: k' in dirty && k' != k ==> dirty[k'] != dirty[k]
    ensures PinsMatch(pins[dirty[k] := 0], dirty - {k})
  {
    var pins', dirty' := pins[dirty[k] := 0], dirty - {k};
    forall i | 0 <= i < NBUF && pins'[i] != 0
      ensures exists k' :: k' in dirty' && dirty'[k'] == i
    {
      var k' :| k' in dirty && dirty[k'] == i;
      assert k' in dirty';
    }
  }

  lemma CleanDisk(bs: seq<Buf>, disk: Image, latest: Image, pins: seq<nat>, dirty: map<nat, nat>)
    requires |bs| == NBUF + 1 && |pins| == NBUF && Coherent(bs, disk, latest, pins, dirty) && PinsMatch(pins, dirty)
    requires dirty == map[]
    ensures disk == latest && pins == seq(NBUF, _ => 0)
  {
    assert forall i :: 0 <= i < NBUF ==> pins[i] == 0;
  }

  lemma PinAppend(pins: seq<nat>, dirty: map<nat, nat>, k: nat, b: nat)
    requires PinsMatch(pins, dirty) && b < NBUF && pins[b] == 0 && k !in dirty
    ensures PinsMatch(pins[b := 1], dirty[k := b])
  {
    var pins', dirty' := pins[b := 1], dirty[k := b];
    forall i | 0 <= i < NBUF && pins'[i] != 0
      ensures exists k' :: k' in dirty' && dirty'[k'] == i
    {
      if i == b {
        assert dirty'[k] == b;
      } else {
        var k' :| k' in dirty && dirty[k'] == i;
        assert dirty'[k'] == i;
      }
    }
  }

  /** All that adding the block of buffer b to the header keeps. */
  lemma LogAppend(start: nat, bs: seq<Buf>, disk: Image, latest: Image, pins: seq<nat>, dirty: map<nat, nat>,
                  lh: seq<nat>, b: nat)
    requires |bs| == NBUF + 1 && |pins| == NBUF && Unique(bs) && Coherent(bs, disk, latest, pins, dirty)
    requires b < NBUF && bs[b].dev == ROOTDEV && bs[b].valid && !InLog(start, bs[b].blockno)
    requires |disk| < 0x8000_0000 && HomeBlocks(start, |disk|, lh) && |lh| < LOGBLOCKS && bs[b].blockno !in lh
    requires Recorded(lh, 0, dirty) && PinsMatch(pins, dirty)
    ensures pins[b] == 0 && bs[b].blockno < |disk| && HomeBlocks(start, |disk|, lh + [bs[b].blockno])
    ensures Recorded(lh + [bs[b].blockno], 0, dirty[bs[b].blockno := b])
    ensures PinsMatch(pins[b := 1], dirty[bs[b].blockno := b])
  {
    var k := bs[b].blockno;
    assert lh[0..] == lh && k !in dirty;
    DirtyBuffer(bs, disk, latest, pins, dirty, b);
    HomeAppend(start, |disk|, lh, k);
    RecordAppend(lh, dirty, k, b);
    PinAppend(pins, dirty, k, b);
  }

  // ---- a transaction of LOGBLOCKS blocks leaves no buffer to commit it with ----

  /** Distinct buffers of the first k logged blocks. */
  ghost function BuffersOf(lh: seq<nat>, dirty: map<nat, nat>, k: nat): (r: set<nat>)
    requires k <= |lh| && forall i :: 0 <= i < |lh| ==> lh[i] in dirty
  {
    set i | 0 <= i < k :: dirty[lh[i]]
  }

  ghost predicate Injective(dirty: map<nat, nat>) {
    forall x, y :: x in dirty && y in dirty && x != y ==> dirty[x] != dirty[y]
  }

  lemma {:induction false} BuffersOfDistinct(lh: seq<nat>, dirty: map<nat, nat>, k: nat)
    requires k <= |lh| && Distinct(lh) && forall i :: 0 <= i < |lh| ==> lh[i] in dirty
    requires Injective(dirty)
    ensures |BuffersOf(lh, dirty, k)| == k
  {
    if k == 0 {
      assert BuffersOf(lh, dirty, 0) == {};
    } else {
      hide BuffersOf, Injective;
      OneBuffer(lh, dirty, k - 1);
      BuffersOfDistinct(lh, dirty, k - 1);
    }
  }

  lemma OneBuffer(lh: seq<nat>, dirty: map<nat, nat>, k: nat)
    requires k < |lh| && Distinct(lh) && forall i :: 0 <= i < |lh| ==> lh[i] in dirty
    requires Injective(dirty)
    ensures dirty[lh[k]] !in BuffersOf(lh, dirty, k)
    ensures BuffersOf(lh, dirty, k + 1) == BuffersOf(lh, dirty, k) + {dirty[lh[k]]}
  {
  }

  lemma {:induction false} FullSubset(xs: set<nat>, n: nat)
    requires (forall x :: x in xs ==> x < n) && |xs| == n
    ensures forall i :: 0 <= i < n ==> i in xs
  {
    if n > 0 {
      if n - 1 in xs {
        FullSubset(xs - {n - 1}, n - 1);
      } else {
        SmallSubset(xs, n - 1);
      }
    }
  }

  lemma {:induction false} SmallSubset(xs: set<nat>, n: nat)
    requires forall x :: x in xs ==> x < n
    ensures |xs| <= n
  {
    if n > 0 {
      SmallSubset(xs - {n - 1}, n - 1);
    } else {
      assert xs == {};
    }
  }

  /** With LOGBLOCKS blocks logged every one of the NBUF = LOGBLOCKS buffers is
      pinned to a home block; then neither is any buffer spare nor any log block
      cached, which is exactly when bread of a log block panics. */
  lemma FullTransactionStarvesCommit(bs: seq<Buf>, disk: Image, latest: Image, pins: seq<nat>,
                                     dirty: map<nat, nat>, start: nat, lh: seq<nat>, x: nat)
    requires |bs| == NBUF + 1 && |pins| == NBUF && Unique(bs) && Coherent(bs, disk, latest, pins, dirty)
    requires HomeBlocks(start, |disk|, lh) && Recorded(lh, 0, dirty) && |lh| == LOGBLOCKS && InLog(start, x)
    ensures forall i :: 0 <= i < NBUF ==> pins[i] > 0 && !Holds(bs[i], ROOTDEV, x)
  {
    BuffersOfDistinct(lh, dirty, NBUF);
    var used := BuffersOf(lh, dirty, NBUF);
    FullSubset(used, NBUF);
    forall i | 0 <= i < NBUF
      ensures pins[i] > 0 && !Holds(bs[i], ROOTDEV, x)
    {
      assert i in used;
      var j :| 0 <= j < NBUF && dirty[lh[j]] == i;
      assert Holds(bs[dirty[lh[j]]], ROOTDEV, lh[j]);
    }
  }

  lemma {:induction false} Missing(xs: set<nat>, n: nat) returns (i: nat)
    requires |xs| < n && forall x :: x in xs ==> x < n
    ensures i < n && i !in xs
  {
    if n - 1 !in xs {
      return n - 1;
    }
    i := Missing(xs - {n - 1}, n - 1);
  }

  /** With fewer blocks logged some buffer is not pinned. */
  lemma PartTransactionLeavesBuffer(bs: seq<Buf>, disk: Image, latest: Image, pins: seq<nat>,
                                    dirty: map<nat, nat>, lh: seq<nat>) returns (i: nat)
    requires |bs| == NBUF + 1 && |pins| == NBUF && Unique(bs) && Coherent(bs, disk, latest, pins, dirty)
    requires Distinct(lh) && Recorded(lh, 0, dirty) && PinsMatch(pins, dirty) && |lh| < LOGBLOCKS
    ensures i < NBUF && pins[i] == 0
  {
    assert lh[0..] == lh;
    BuffersOfDistinct(lh, dirty, |lh|);
    i := Missing(BuffersOf(lh, dirty, |lh|), NBUF);
    assert forall k :: k in dirty ==> dirty[k] in BuffersOf(lh, dirty, |lh|);
  }

  lemma DistinctBlocks(start: nat, size: nat, lh: seq<nat>)
    requires HomeBlocks(start, size, lh)
    ensures Distinct(lh)
  {
  }

  /** Of the logged blocks, those from k on have the buffers they had. */
  ghost predicate StillDirty(lh: seq<nat>, k: nat, dirty0: map<nat, nat>, dirty: map<nat, nat>) {
    && dirty.Keys <= dirty0.Keys
    && forall i :: k <= i < |lh| && lh[i] in dirty0 ==> lh[i] in dirty && dirty[lh[i]] == dirty0[lh[i]]
  }

  lemma StillDirtyNext(lh: seq<nat>, k: nat, dirty0: map<nat, nat>, dirty: map<nat, nat>, dirty': map<nat, nat>)
    requires Distinct(lh) && k < |lh| && StillDirty(lh, k, dirty0, dirty) && dirty' == dirty - {lh[k]}
    ensures StillDirty(lh, k + 1, dirty0, dirty')
  {
  }

  lemma SameHolder(lh: seq<nat>, k: nat, dirty0: map<nat, nat>, dirty: map<nat, nat>, holders: seq<nat>)
    requires k < |lh| && StillDirty(lh, k, dirty0, dirty)
    ensures NoHolder(holders, dirty, lh[k]) <==> NoHolder(holders, dirty0, lh[k])
  {
  }

  /** Only the log keeps the buffer of logged block y. */
  ghost predicate NoHolder(holders: seq<nat>, dirty: map<nat, nat>, y: nat) {
    y in dirty && dirty[y] < |holders| && holders[dirty[y]] == 0
  }

  /** When every buffer was in use, unpinning y's frees it exactly if nobody holds it. */
  lemma SpareAfter(holders: seq<nat>, pins: seq<nat>, pins': seq<nat>, dirty: map<nat, nat>, y: nat)
    requires |holders| == |pins| == NBUF && y in dirty && dirty[y] < NBUF && pins[dirty[y]] == 1
    requires pins' == pins[dirty[y] := 0]
    requires forall i :: 0 <= i < NBUF ==> holders[i] != 0 || pins[i] != 0
    ensures (exists i :: 0 <= i < NBUF && holders[i] == 0 && pins'[i] == 0) <==> NoHolder(holders, dirty, y)
  {
    if NoHolder(holders, dirty, y) {
      assert pins'[dirty[y]] == 0;
    }
  }

  lemma KeptNames(bs: seq<Buf>, bs': seq<Buf>)
    ensures SameNames(bs, bs') ==> forall x :: HasBlock(bs, x) <==> HasBlock(bs', x)
  {
    if SameNames(bs, bs') {
      SameNamesSameBlocks(bs, bs');
    }
  }

  class Log {
    const bc: BufCache
    const start: nat
    const block: array<nat>
    var n: nat
    var outstanding: nat
    var committing: bool

    /** The in-memory header, its first k blocks already installed. */
    ghost predicate Pending(k: nat)
      reads this, block, bc, bc.buf
    {
      && block.Length == LOGBLOCKS && k <= n <= LOGBLOCKS
      && bc.Valid()
      && start + LOGBLOCKS < |bc.disk| < 0x8000_0000
      && HomeBlocks(start, |bc.disk|, block[..n])
      && Recorded(block[..n], k, bc.dirty)
      && PinsMatch(bc.pins, bc.dirty)
    }

    ghost predicate Valid()
      reads this, block, bc, bc.buf
    {
      Pending(0)
    }

    /** Recovery is done: the header on disk is that of an empty log, and stays so until
        a commit writes it. */
    ghost predicate Recovered()
      reads this, block, bc, bc.buf
    {
      Valid() && HeaderCount(bc.disk, start) == 0
    }

    ghost predicate NoneLocked()
      reads bc, bc.buf
    {
      forall i :: 0 <= i < NBUF < bc.buf.Length ==> !bc.buf[i].locked
    }

    /** The log of a freshly booted machine, before recovery. */
    constructor (bc: BufCache, start: nat)
      requires bc.Valid() && bc.dirty == map[] && bc.pins == seq(NBUF, _ => 0)
      requires start + LOGBLOCKS < |bc.disk| < 0x8000_0000
      ensures Valid() && this.bc == bc && this.start == start && fresh(block)
      ensures n == 0 && outstanding == 0 && !committing
    {
      this.bc := bc;
      this.start := start;
      block := new nat[LOGBLOCKS](_ => 0);
      n := 0;
      outstanding := 0;
      committing := false;
    }

    /** The absorption scan of log_write: the slot that holds block k, or n. */
    method FindSlot(k: nat) returns (i: nat)
      requires block.Length == LOGBLOCKS && n <= LOGBLOCKS
      ensures i <= n && (i < n ==> block[i] == k)
      ensures i == n <==> k !in block[..n]
    {
      i := 0;
      while i < n
        invariant i <= n
        invariant forall j :: 0 <= j < i ==> block[j] != k
      {
        if block[i] == k {
          break;
        }
        i := i + 1;
      }
    }

    /** log_write by an operation that holds buffer b, changed or not.  `ok` is
        false where the kernel panics. */
    method LogWrite(b: nat) returns (ok: bool)
      requires Valid() && b < NBUF
      requires bc.buf[b].locked && bc.buf[b].valid && bc.buf[b].dev == ROOTDEV && !InLog(start, bc.buf[b].blockno)
      modifies this`n, block, bc`latest, bc`dirty, bc`pins, bc.buf
      ensures Valid()
      ensures ok <==> old(n) < LOGBLOCKS && outstanding > 0
      ensures !ok ==> n == old(n) && bc.latest == old(bc.latest) && bc.buf[..] == old(bc.buf[..])
      ensures ok ==> var k := old(bc.buf[b].blockno);
                && block[..n] == (if k in old(block[..n]) then old(block[..n]) else old(block[..n]) + [k])
                && bc.latest == old(bc.latest)[k := old(bc.buf[b].data)]
                && SameContents(bc.buf[b], old(bc.buf[b]).(refcnt := bc.buf[b].refcnt))
                && (forall i :: 0 <= i < NBUF && i != b ==> bc.buf[i] == old(bc.buf[i]))
    {
      hide Linked, Counted, Unique, Recorded, HomeBlocks, PinsMatch;
      if n >= LOGBLOCKS {
        return false;
      }
      if outstanding < 1 {
        return false;
      }
      var i := FindSlot(bc.buf[b].blockno);
      if i == n {
        AppendLogged(b);
      } else {
        AbsorbLogged(b, i);
      }
      ok := true;
    }

    /** A new block joins the transaction: pinned once. */
    method AppendLogged(b: nat)
      requires Valid() && b < NBUF && n < LOGBLOCKS
      requires bc.buf[b].locked && bc.buf[b].valid && bc.buf[b].dev == ROOTDEV && !InLog(start, bc.buf[b].blockno)
      requires bc.buf[b].blockno !in block[..n]
      modifies this`n, block, bc`latest, bc`dirty, bc`pins, bc.buf
      ensures Valid() && block[..n] == old(block[..n]) + [old(bc.buf[b].blockno)]
      ensures bc.latest == old(bc.latest)[old(bc.buf[b].blockno) := old(bc.buf[b].data)]
      ensures bc.buf[..] == old(bc.buf[..])[b := old(bc.buf[b]).(refcnt := old(bc.buf[b].refcnt) + 1)]
    {
      hide Linked, Counted, Coherent, Unique, Recorded, HomeBlocks, PinsMatch;
      LogAppend(start, bc.buf[..], bc.disk, bc.latest, bc.pins, bc.dirty, block[..n], b);
      var k := bc.buf[b].blockno;
      block[n] := k;
      n := n + 1;
      assert block[..n] == old(block[..n]) + [k];
      bc.PinLogged(b);
    }

    /** A block already in the transaction keeps its slot and its one pin. */
    method AbsorbLogged(b: nat, i: nat)
      requires Valid() && b < NBUF && i < n
      requires bc.buf[b].locked && bc.buf[b].valid && bc.buf[b].dev == ROOTDEV && block[i] == bc.buf[b].blockno
      modifies block, bc`latest, bc`dirty
      ensures Valid() && block[..n] == old(block[..n])
      ensures bc.latest == old(bc.latest)[bc.buf[b].blockno := bc.buf[b].data]
      ensures bc.dirty.Keys == old(bc.dirty).Keys
    {
      hide Linked, Counted;
      RecordAbsorb(block[..n], bc.dirty, block[i], b);
      DirtyBuffer(bc.buf[..], bc.disk, bc.latest, bc.pins, bc.dirty, b);
      assert bc.dirty[block[i] := b] == bc.dirty;
      hide Recorded, PinsMatch, HomeBlocks, Coherent, Unique;
      block[i] := bc.buf[b].blockno;
      assert block[..n] == old(block[..n]);
      bc.MarkLogged(b);
    }
  
    // ---- copying one block, as each loop iteration of write_log and install_trans does ----

    ghost predicate LockedOnly(lb: nat, hb: nat)
      reads bc, bc.buf
    {
      forall i :: 0 <= i < NBUF < bc.buf.Length && i != lb && i != hb ==> !bc.buf[i].locked
    }

    /** Nobody uses or pins any buffer, as after a boot. */
    ghost predicate AllSpare()
      reads bc
    {
      |bc.holders| == |bc.pins| == NBUF && forall i :: 0 <= i < NBUF ==> bc.holders[i] == 0 && bc.pins[i] == 0
    }

    /** bread of a log block and then of its home block. */
    method ReadPair(x: nat, y: nat) returns (lb: nat, hb: nat, ok: bool)
      requires bc.Valid() && NoneLocked() && x != y && x < |bc.disk| && y < |bc.disk|
      modifies bc`holders, bc.buf
      ensures bc.Valid()
      ensures y in bc.dirty ==> (ok <==> old(bc.Spare()) || old(bc.Cached(x)))
      ensures old(AllSpare()) ==> ok
      ensures ok && !old(bc.Spare()) ==> SameNames(old(bc.buf[..]), bc.buf[..])
      ensures ok ==> lb < NBUF && hb < NBUF && lb != hb && LockedOnly(lb, hb)
      ensures ok ==>
          bc.buf[lb].locked && bc.buf[lb].valid && Holds(bc.buf[lb], ROOTDEV, x) && bc.buf[lb].data == bc.latest[x]
      ensures ok ==>
          bc.buf[hb].locked && bc.buf[hb].valid && Holds(bc.buf[hb], ROOTDEV, y) && bc.buf[hb].data == bc.latest[y]
      ensures ok ==> bc.holders == old(bc.holders)[lb := old(bc.holders)[lb] + 1][hb := old(bc.holders)[hb] + 1]
    {
      hide Linked, Unique, Counted, Coherent;
      assert AllSpare() ==> bc.Spare() by {
        if AllSpare() {
          assert bc.holders[0] == 0;
        }
      }
      var sleeps;
      lb, ok, sleeps := bc.BRead(x);
      hb := lb;
      if ok {
        if y in bc.dirty {
          DirtyCached(bc.buf[..], bc.disk, bc.latest, bc.pins, bc.dirty, y);
        }
        assert old(AllSpare()) ==> bc.Spare() by {
          if old(AllSpare()) {
            assert bc.holders[(lb + 1) % NBUF] == 0;
          }
        }
        hb, ok, sleeps := bc.BRead(y);
      }
    }

    method ReleasePair(lb: nat, hb: nat)
      requires bc.Valid() && lb < NBUF && hb < NBUF && lb != hb && LockedOnly(lb, hb)
      requires bc.buf[lb].locked && (bc.buf[lb].blockno < |bc.disk| ==>
        bc.buf[lb].data == bc.latest[bc.buf[lb].blockno])
      requires bc.buf[hb].locked && (bc.buf[hb].blockno < |bc.disk| ==>
        bc.buf[hb].data == bc.latest[bc.buf[hb].blockno])
      modifies bc`holders, bc`order, bc.buf
      ensures bc.Valid() && NoneLocked()
      ensures bc.holders == old(bc.holders)[lb := old(bc.holders)[lb] - 1][hb := old(bc.holders)[hb] - 1]
      ensures SameNames(old(bc.buf[..]), bc.buf[..])
    {
      hide Linked, Unique, Counted;
      bc.BRelse(lb);
      bc.BRelse(hb);
    }
  
    /** One iteration of write_log: cached home block to log block. */
    method CopyToLog(x: nat, y: nat) returns (ok: bool)
      requires bc.Valid() && NoneLocked() && x != y && x < |bc.disk| && y < |bc.disk|
      requires y in bc.dirty && x !in bc.dirty
      modifies bc`holders, bc`order, bc`disk, bc`latest, bc`dirty, bc`trace, bc.buf
      ensures bc.Valid() && bc.dirty == old(bc.dirty)
      ensures ok <==> old(bc.Spare()) || old(bc.Cached(x))
      ensures ok && !old(bc.Spare()) ==> SameNames(old(bc.buf[..]), bc.buf[..])
      ensures ok ==> NoneLocked() && bc.holders == old(bc.holders)
      ensures ok ==>
          bc.disk == old(bc.disk)[x := old(bc.latest)[y]] && bc.latest == old(bc.latest)[x := old(bc.latest)[y]]
      ensures ok ==> bc.trace == old(bc.trace) + [Write(x, old(bc.latest)[y])]
      ensures !ok ==> bc.disk == old(bc.disk) && bc.latest == old(bc.latest) && bc.trace == old(bc.trace)
    {
      hide Linked, Unique, Counted, Coherent;
      var lb, hb;
      lb, hb, ok := ReadPair(x, y);
      if ok {
        bc.SetData(lb, bc.buf[hb].data);
        bc.BWrite(lb);
        assert bc.dirty == old(bc.dirty);
        ReleasePair(lb, hb);
      }
    }

    /** One iteration of install_trans: log block to home block. */
    method CopyHome(x: nat, y: nat, recovering: bool) returns (ok: bool)
      requires bc.Valid() && NoneLocked() && x != y && x < |bc.disk| && y < |bc.disk| && x !in bc.dirty
      requires recovering ==> y !in bc.dirty
      requires !recovering ==> y in bc.dirty && PinsMatch(bc.pins, bc.dirty)
      modifies bc`holders, bc`order, bc`disk, bc`latest, bc`dirty, bc`trace, bc`pins, bc.buf
      ensures bc.Valid() 
      ensures !recovering ==> (ok <==> old(bc.Spare()) || old(bc.Cached(x)))
      ensures old(AllSpare()) ==> ok
      ensures ok && !old(bc.Spare()) ==> SameNames(old(bc.buf[..]), bc.buf[..])
      ensures ok ==> NoneLocked() && bc.holders == old(bc.holders)
      ensures ok ==>
          bc.disk == old(bc.disk)[y := old(bc.latest)[x]] && bc.latest == old(bc.latest)[y := old(bc.latest)[x]]
      ensures ok ==> bc.trace == old(bc.trace) + [Write(y, old(bc.latest)[x])]
      ensures ok ==> bc.dirty == old(bc.dirty) - {y}
      ensures ok && old(bc.Spare()) ==> bc.Spare()
      ensures ok && recovering ==> bc.pins == old(bc.pins)
      ensures ok && !recovering ==> PinsMatch(bc.pins, bc.dirty)
      ensures ok && !recovering && !old(bc.Spare()) ==> (bc.Spare() <==> NoHolder(bc.holders, old(bc.dirty), y))
    {
      hide Linked, Unique, Counted, Coherent, PinsMatch;
      var lb, hb;
      lb, hb, ok := ReadPair(x, y);
      if ok {
        if !recovering {
          DirtyBuffer(bc.buf[..], bc.disk, bc.latest, bc.pins, bc.dirty, hb);
          DirtyInjective(bc.buf[..], bc.disk, bc.latest, bc.pins, bc.dirty, y);
        }
        bc.SetData(hb, bc.buf[lb].data);
        bc.BWrite(hb);
        if !recovering {
          PinRemove(old(bc.pins), old(bc.dirty), y);
          bc.BUnpin(hb);
        }
        ReleasePair(lb, hb);
        assert bc.holders == old(bc.holders);
        if !recovering && !old(bc.Spare()) {
          SpareAfter(old(bc.holders), old(bc.pins), bc.pins, old(bc.dirty), y);
        }
      }
    }
  
    // ---- the loops ----

    ghost function Storage(): Store
      reads bc
    {
      Store(bc.disk, bc.latest, bc.trace)
    }

    /** The first k blocks of the log area are in the cache. */
    ghost predicate LogCached(k: nat)
      reads bc.buf
    {
      forall x :: start < x <= start + k ==> bc.Cached(x)
    }

    /** write_log; ok is false if bget ran out of buffers. */
    method WriteLog() returns (ok: bool, ghost k: nat)
      requires Valid() && NoneLocked()
      modifies bc`holders, bc`order, bc`disk, bc`latest, bc`dirty, bc`trace, bc.buf
      ensures ok <==> old(bc.Spare()) || old(LogCached(n))
      ensures ok && !old(bc.Spare()) ==> forall x :: bc.Cached(x) <==> old(bc.Cached(x))
      ensures ok ==> Valid() && NoneLocked() && bc.holders == old(bc.holders) && bc.dirty == old(bc.dirty)
      ensures k <= n && (ok <==> k == n) && LogProgress(old(Storage()), start, block[..n], k, Storage())
    {
      hide HasBlock, Linked, Unique, Counted, Coherent, PinsMatch, Recorded, HomeBlocks, LogProgress;
      LogProgressNone(Storage(), start, block[..n]);
      hide Pending;
      var tail := 0;
      k := 0;
      while tail < n
        invariant k == tail <= n && Valid() && NoneLocked()
        invariant bc.holders == old(bc.holders) && bc.dirty == old(bc.dirty)
        invariant old(bc.Spare()) || (old(LogCached(tail)) && forall x :: bc.Cached(x) <==> old(bc.Cached(x)))
        invariant LogProgress(old(Storage()), start, block[..n], tail, Storage())
      {
        ghost var bs := bc.buf[..];
        ok := WriteLogStep(tail, old(Storage()));
        KeptNames(bs, bc.buf[..]);
        if !ok {
          return;
        }
        tail, k := tail + 1, k + 1;
      }
      ok := true;
    }

    method WriteLogStep(tail: nat, ghost s0: Store) returns (ok: bool)
      requires Valid() && NoneLocked() && tail < n && LogProgress(s0, start, block[..n], tail, Storage())
      modifies bc`holders, bc`order, bc`disk, bc`latest, bc`dirty, bc`trace, bc.buf
      ensures ok <==> old(bc.Spare()) || old(bc.Cached(start + 1 + tail))
      ensures ok && !old(bc.Spare()) ==> SameNames(old(bc.buf[..]), bc.buf[..])
      ensures ok ==> Valid() && NoneLocked() && bc.holders == old(bc.holders) && bc.dirty == old(bc.dirty)
      ensures ok ==> LogProgress(s0, start, block[..n], tail + 1, Storage())
      ensures !ok ==> Storage() == old(Storage())
    {
      hide Linked, Unique, Counted, Coherent, PinsMatch, LogProgress, Recorded, HomeBlocks;
      PairFacts(start, |bc.disk|, block[..n], bc.dirty, tail, 0);
      ok := CopyToLog(start + 1 + tail, block[tail]);
      if ok {
        LogProgressOne(s0, start, block[..n], tail, old(Storage()), Storage());
      }
    }
  
    /** install_trans may copy block k next: during a commit the blocks from k on
        are still pinned; during recovery the cache is idle. */
    ghost predicate Ready(recovering: bool, k: nat)
      reads this, block, bc, bc.buf
    {
      && block.Length == LOGBLOCKS && k <= n <= LOGBLOCKS
      && bc.Valid() && NoneLocked()
      && start + LOGBLOCKS < |bc.disk| < 0x8000_0000
      && HomeBlocks(start, |bc.disk|, block[..n])
      && PinsMatch(bc.pins, bc.dirty)
      && (if recovering then bc.dirty == map[] && AllSpare() else Recorded(block[..n], k, bc.dirty))
    }

    method InstallStep(recovering: bool, tail: nat, ghost s0: Store) returns (ok: bool)
      requires Ready(recovering, tail) && tail < n && InstallProgress(s0, start, block[..n], tail, Storage())
      modifies bc`holders, bc`order, bc`disk, bc`latest, bc`dirty, bc`trace, bc`pins, bc.buf
      ensures ok <==> recovering || old(bc.Spare()) || old(bc.Cached(start + 1 + tail))
      ensures ok ==> if old(bc.Spare()) then bc.Spare() else SameNames(old(bc.buf[..]), bc.buf[..])
      ensures ok && !recovering && !old(bc.Spare()) ==>
        (bc.Spare() <==> NoHolder(bc.holders, old(bc.dirty), block[tail]))
      ensures ok ==> bc.dirty == old(bc.dirty) - {block[tail]}
      ensures ok ==> Ready(recovering, tail + 1) && bc.holders == old(bc.holders)
      ensures ok ==> InstallProgress(s0, start, block[..n], tail + 1, Storage())
    {
      hide Linked, Unique, Counted, Coherent, PinsMatch, InstallProgress, Recorded, HomeBlocks;
      InstallPair(start, |bc.disk|, block[..n], bc.dirty, tail, recovering);
      ok := CopyHome(start + 1 + tail, block[tail], recovering);
      if ok {
        InstallProgressOne(s0, start, block[..n], tail, old(Storage()), Storage());
      }
    }

    /** There is a buffer for every block that install_trans reads: one is free, or the log
        blocks are cached, all of them or those up to one whose home buffer is then free. */
    ghost predicate CanInstall(recovering: bool)
      reads this`n, block, bc, bc.buf
    {
      || recovering || bc.Spare() || LogCached(n)
      || exists j :: 0 <= j < n && FreesBuffer(j)
    }

    ghost predicate FreesBuffer(j: nat)
      reads block, bc, bc.buf
    {
      j < block.Length && LogCached(j + 1) && NoHolder(bc.holders, bc.dirty, block[j])
    }

    /** install_trans; ok is false if bget ran out of buffers. */
    method InstallTrans(recovering: bool) returns (ok: bool)
      requires Ready(recovering, 0)
      modifies bc`holders, bc`order, bc`disk, bc`latest, bc`dirty, bc`trace, bc`pins, bc.buf
      ensures ok <==> old(CanInstall(recovering))
      ensures ok ==> bc.Spare() || (!old(bc.Spare()) && forall x :: bc.Cached(x) <==> old(bc.Cached(x)))
      ensures ok ==> Ready(recovering, n) && bc.holders == old(bc.holders)
      ensures ok ==> InstallProgress(old(Storage()), start, block[..n], n, Storage())
    {
      hide HasBlock, Linked, Unique, Counted, Coherent, PinsMatch, Recorded, HomeBlocks, InstallProgress, NoHolder;
      InstallProgressNone(Storage(), start, block[..n]);
      assert Distinct(block[..n]) by {
        DistinctBlocks(start, |bc.disk|, block[..n]);
      }
      assert recovering ==> bc.Spare() by {
        if recovering {
          assert bc.holders[0] == 0;
        }
      }
      hide Ready, Distinct, StillDirty;
      var tail := 0;
      while tail < n
        invariant tail <= n && Ready(recovering, tail) && bc.holders == old(bc.holders)
        invariant bc.Spare() || (!old(bc.Spare()) && forall x :: bc.Cached(x) <==> old(bc.Cached(x)))
        invariant StillDirty(block[..n], tail, old(bc.dirty), bc.dirty)
        invariant !recovering && bc.Spare() ==> old(bc.Spare()) || exists j :: 0 <= j < tail && old(FreesBuffer(j))
        invariant recovering ==> bc.Spare()
        invariant !bc.Spare() ==> old(LogCached(tail)) && forall j :: 0 <= j < tail ==> !old(FreesBuffer(j))
        invariant InstallProgress(old(Storage()), start, block[..n], tail, Storage())
      {
        ghost var bs, d1, spare := bc.buf[..], bc.dirty, bc.Spare();
        ok := InstallStep(recovering, tail, old(Storage()));
        KeptNames(bs, bc.buf[..]);
        if !ok {
          return;
        }
        StillDirtyNext(block[..n], tail, old(bc.dirty), d1, bc.dirty);
        SameHolder(block[..n], tail, old(bc.dirty), d1, bc.holders);
        assert !spare && bc.Spare() ==> old(FreesBuffer(tail));
        tail := tail + 1;
      }
      ok := true;
    }

    // ---- the header ----

    /** The stores of write_head into the header buffer. */
    method FormatHeader(was: Block) returns (h: Block)
      requires block.Length == LOGBLOCKS && n <= LOGBLOCKS && forall i :: 0 <= i < n ==> block[i] < 0x8000_0000
      ensures h == HeaderBlock(was, block[..n])
    {
      h := was[0 := n];
      var i := 0;
      while i < n
        invariant i <= n && h[0] == n
        invariant forall j :: 0 <= j < i ==> h[1 + j] == block[j]
        invariant forall j :: i < j < WORDS ==> h[j] == was[j]
      {
        h := h[1 + i := block[i]];
        i := i + 1;
      }
    }

    /** write_head; ok is false if bget ran out of buffers. */
    method WriteHead() returns (ok: bool)
      requires bc.Valid() && NoneLocked() && start < |bc.disk| && start !in bc.dirty
      requires block.Length == LOGBLOCKS && n <= LOGBLOCKS && forall i :: 0 <= i < n ==> block[i] < 0x8000_0000
      modifies bc`holders, bc`order, bc`disk, bc`latest, bc`dirty, bc`trace, bc.buf
      ensures ok <==> old(bc.Spare()) || old(bc.Cached(start))
      ensures ok && !old(bc.Spare()) ==> forall x :: bc.Cached(x) <==> old(bc.Cached(x))
      ensures bc.Valid() && NoneLocked() && bc.holders == old(bc.holders) && bc.dirty == old(bc.dirty)
      ensures ok ==> Wrote1(old(Storage()), start, HeaderBlock(old(bc.latest)[start], block[..n]), Storage())
      ensures !ok ==> Storage() == old(Storage())
    {
      hide HasBlock, Linked, Unique, Counted, Coherent, HeaderBlock;
      var b, sleeps;
      b, ok, sleeps := bc.BRead(start);
      if ok {
        var h := FormatHeader(bc.buf[b].data);
        bc.SetData(b, h);
        bc.BWrite(b);
        bc.BRelse(b);
        KeptNames(old(bc.buf[..]), bc.buf[..]);
      }
    }

    /** read_head, of a header that names at most LOGBLOCKS blocks. */
    method ReadHead()
      requires bc.Valid() && NoneLocked() && bc.Spare() && start < |bc.disk| && block.Length == LOGBLOCKS
      requires HeaderCount(bc.latest, start) <= LOGBLOCKS
      modifies this`n, block, bc`holders, bc`order, bc.buf
      ensures bc.Valid() && NoneLocked() && bc.holders == old(bc.holders)
      ensures n <= LOGBLOCKS && block[..n] == HeaderBlocks(bc.latest, start)
    {
      hide Linked, Unique, Counted, Coherent;
      var b, ok, sleeps := bc.BRead(start);
      var h := bc.buf[b].data;
      bc.BRelse(b);
      n := h[0];
      var i := 0;
      while i < n
        invariant i <= n
        invariant forall j :: 0 <= j < i ==> block[j] == h[1 + j]
        modifies block
      {
        block[i] := h[1 + i];
        i := i + 1;
      }
    }
  
    // ---- commit and recovery ----

    /** Nobody holds a buffer, as between operations. */
    ghost predicate NoHolders()
      reads bc
    {
      |bc.holders| == NBUF && forall i :: 0 <= i < NBUF ==> bc.holders[i] == 0
    }

    /** There is a buffer for every block that commit reads. */
    ghost predicate CanCommit()
      reads this`n, bc, bc.buf
    {
      n == 0 || bc.Spare() || (bc.Cached(start) && LogCached(n))
    }

    lemma UnpinnedLeft()
      requires Valid() && NoHolders() && n < LOGBLOCKS
      ensures bc.Spare()
    {
      hide Linked, Counted;
      var i := PartTransactionLeavesBuffer(bc.buf[..], bc.disk, bc.latest, bc.pins, bc.dirty, block[..n]);
      assert bc.holders[i] == 0 && bc.pins[i] == 0;
    }

    /** Without holders that is so exactly if the transaction is not full. */
    lemma CanCommitUnlessFull()
      requires Valid() && NoHolders()
      ensures CanCommit() <==> n < LOGBLOCKS
    {
      hide Linked, Counted;
      if n < LOGBLOCKS {
        UnpinnedLeft();
      } else {
        FullTransactionStarvesCommit(bc.buf[..], bc.disk, bc.latest, bc.pins, bc.dirty, start, block[..n], start);
      }
    }

    /** commit, which makes the first k of its writes; ok is false if it ran out of buffers.
        Then it has not come to the header: the disk recovers to what it did before. */
    method Commit() returns (ok: bool, ghost k: nat)
      requires Valid() && NoneLocked()
      modifies this`n, bc`holders, bc`order, bc`disk, bc`latest, bc`dirty, bc`trace, bc`pins, bc.buf
      ensures ok <==> old(CanCommit())
      ensures old(NoHolders()) ==> (ok <==> old(n) < LOGBLOCKS)
      ensures ok ==> Valid() && NoneLocked() && n == 0 && bc.holders == old(bc.holders)
      ensures ok ==> bc.disk == bc.latest && SameHome(start, bc.disk, old(bc.latest))
      ensures ok ==> bc.pins == seq(NBUF, _ => 0)
      ensures ok ==>
        Wrote(old(bc.disk), old(bc.trace), CommitWrites(old(bc.latest), start, old(block[..n])), bc.disk, bc.trace)
      ensures ok && old(Recovered()) ==> Recovered()
      ensures k <= |CommitWrites(old(bc.latest), start, old(block[..n]))|
      ensures ok ==> k == |CommitWrites(old(bc.latest), start, old(block[..n]))|
      ensures !ok ==> k <= old(n) && Wrote(old(bc.disk), old(bc.trace),
                                           CommitWrites(old(bc.latest), start, old(block[..n]))[..k], bc.disk, bc.trace)
      ensures !ok ==> SameHome(start, bc.disk, old(bc.disk)) && bc.disk[start] == old(bc.disk[start])
    {
      hide HasBlock, Linked, Unique, Counted, Coherent, PinsMatch, Recorded, HomeBlocks, LogProgress, InstallProgress,
          Wrote, CommitWrites;
      if NoHolders() {
        CanCommitUnlessFull();
      }
      if n > 0 {
        ghost var s0 := Storage();
        HeaderClean(start, |bc.disk|, block[..n], bc.dirty, 0);
        ok, k := WriteLog();
        CommitStarted(s0, start, block[..n], k, Storage());
        if !ok {
          return;
        }
        ghost var s1 := Storage();
        ok := WriteHead();
        if !ok {
          return;
        }
        ghost var s2 := Storage();
        ok := InstallTrans(false);
        if !ok {
          return;
        }
        ghost var s3 := Storage();
        ghost var lh := block[..n];
        AllInstalled(lh, bc.dirty);
        n := 0;
        k := |CommitWrites(s0.latest, start, lh)|;
        ok := WriteHead();
        if ok {
          CommitComposes(s0, start, lh, s1, s2, s3, Storage());
          NothingPending(start, |bc.disk|, bc.dirty);
          CleanDisk(bc.buf[..], bc.disk, bc.latest, bc.pins, bc.dirty);
        }
      } else {
        CommitNothing(Storage(), start);
        assert block[..n] == [];
        AllInstalled([], bc.dirty);
        CleanDisk(bc.buf[..], bc.disk, bc.latest, bc.pins, bc.dirty);
        ok, k := true, 0;
      }
    }
  
    /** recover_from_log on a freshly booted machine: whatever image the log on
        the disk commits to, the home blocks hold it afterwards. */
    method RecoverFromLog()
      requires Valid() && NoneLocked() && AllSpare() && n == 0
      requires bc.latest == bc.disk && LogReadable(bc.disk, start)
      modifies this`n, block, bc`holders, bc`order, bc`disk, bc`latest, bc`dirty, bc`trace, bc`pins, bc.buf
      ensures Valid() && NoneLocked() && n == 0 && bc.holders == old(bc.holders)
      ensures Recovered() && bc.disk == bc.latest && LogReadable(bc.disk, start)
      ensures Wrote(old(bc.disk), old(bc.trace), RecoverWrites(old(bc.disk), start), bc.disk, bc.trace)
      ensures forall img :: RecoversTo(old(bc.disk), start, img) ==> SameHome(start, bc.disk, img)
    {
      hide Linked, Unique, Counted, Coherent, PinsMatch, Recorded, HomeBlocks, InstallProgress, Wrote,
           RecoverWrites, RecoversTo, SameHome, HeaderBlocks, HeaderCount;
      assert block[..n] == [];
      AllInstalled([], bc.dirty);
      ghost var s0 := Storage();
      assert bc.Spare() by {
        assert bc.holders[0] == 0;
      }
      HeaderReadable(bc.disk, start);
      ReadHead();
      var ok := InstallTrans(true);
      ghost var s1 := Storage();
      n := 0;
      ok := WriteHead();
      RecoverComposes(s0, start, s1, Storage());
      NothingPending(start, |bc.disk|, bc.dirty);
      CleanDisk(bc.buf[..], bc.disk, bc.latest, bc.pins, bc.dirty);
    }
  
    // ---- operations ----

    /** One pass of begin_op under log.lock; the caller sleeps if not admitted. */
    method BeginOp() returns (admitted: bool)
      modifies this`outstanding
      ensures admitted <==> !committing && n + (old(outstanding) + 1) * MAXOPBLOCKS <= LOGBLOCKS
      ensures outstanding == old(outstanding) + if admitted then 1 else 0
    {
      if committing {
        return false;
      } else if n + (outstanding + 1) * MAXOPBLOCKS > LOGBLOCKS {
        return false;
      } else {
        outstanding := outstanding + 1;
        return true;
      }
    }

    /** end_op: the last outstanding operation commits.  `ok` is false where the
        kernel panics. */
    method EndOp() returns (ok: bool)
      requires Valid() && NoneLocked() && outstanding > 0
      modifies this`n, this`outstanding, this`committing
      modifies bc`holders, bc`order, bc`disk, bc`latest, bc`dirty, bc`trace, bc`pins, bc.buf
      ensures outstanding == old(outstanding) - 1
      ensures old(committing) ==> !ok
      ensures ok <==> !old(committing) && (outstanding > 0 || old(CanCommit()))
      ensures !old(committing) && outstanding == 0 && old(NoHolders()) ==> (ok <==> old(n) < LOGBLOCKS)
      ensures ok ==> Valid() && NoneLocked() && !committing && bc.holders == old(bc.holders)
      ensures ok && outstanding > 0 ==>
        n == old(n) && bc.disk == old(bc.disk) && bc.latest == old(bc.latest) && bc.trace == old(bc.trace)
      ensures ok && outstanding == 0 ==>
        n == 0 && bc.disk == bc.latest && SameHome(start, bc.disk, old(bc.latest))
      ensures ok && old(Recovered()) ==> Recovered()
      ensures !ok ==> SameHome(start, bc.disk, old(bc.disk)) && bc.disk[start] == old(bc.disk[start])
    {
      hide HasBlock, Linked, Unique, Counted, Coherent, PinsMatch, Recorded, HomeBlocks, Wrote, CommitWrites;
      outstanding := outstanding - 1;
      if committing {
        return false;
      }
      if outstanding == 0 {
        committing := true;
        ghost var k;
        ok, k := Commit();
        committing := false;
      } else {
        ok := true;
      }
    }

    // ---- three operations that together cannot be committed ----

    ghost predicate Idle()
      reads this, block, bc, bc.buf
    {
      Valid() && NoneLocked() && NoHolders() && outstanding == 0 && !committing
    }

    /** One operation reads block k, changes it and logs it. */
    method LogBlock(k: nat, data: Block)
      requires Valid() && NoneLocked() && NoHolders() && n < LOGBLOCKS && outstanding > 0
      requires k < |bc.disk| && !InLog(start, k) && k !in block[..n]
      modifies this`n, block, bc`holders, bc`order, bc`latest, bc`dirty, bc`pins, bc.buf
      ensures Valid() && NoneLocked() && NoHolders() && block[..n] == old(block[..n]) + [k]
      ensures bc.latest == old(bc.latest)[k := data]
    {
      hide Linked, Unique, Counted, Coherent, PinsMatch, Recorded, HomeBlocks;
      UnpinnedLeft();
      var b, ok, sleeps := bc.BRead(k);
      bc.SetData(b, data);
      ok := LogWrite(b);
      bc.BRelse(b);
    }

    /** From an idle log three operations are admitted, and may log ten blocks each. */
    method ThreeOperations(first: nat, data: Block)
      requires Idle() && n == 0 && start + LOGBLOCKS < first && first + LOGBLOCKS <= |bc.disk|
      modifies this`n, this`outstanding, block, bc`holders, bc`order, bc`latest, bc`dirty, bc`pins, bc.buf
      ensures Valid() && NoneLocked() && NoHolders() && outstanding == 3 && n == LOGBLOCKS
    {
      hide Linked, Unique, Counted, Coherent, PinsMatch, Recorded, HomeBlocks;
      var ok := BeginOp();
      ok := BeginOp();
      ok := BeginOp();
      assert outstanding == 3;
      var i := 0;
      while i < LOGBLOCKS
        invariant i <= LOGBLOCKS && n == i && Valid() && NoneLocked() && NoHolders() && outstanding == 3
        invariant first + LOGBLOCKS <= |bc.disk| && forall j :: 0 <= j < i ==> block[..n][j] == first + j
      {
        LogBlock(first + i, data);
        i := i + 1;
      }
    }

    /** The last of them panics in end_op, whatever the contents of disk and cache.  The
        disk is left as recoverable as it was. */
    method FullTransactionPanics(first: nat, data: Block) returns (ok: bool)
      requires Idle() && n == 0 && start + LOGBLOCKS < first && first + LOGBLOCKS <= |bc.disk|
      modifies this`n, this`outstanding, this`committing, block
      modifies bc`holders, bc`order, bc`disk, bc`latest, bc`dirty, bc`trace, bc`pins, bc.buf
      ensures !ok && outstanding == 0
      ensures SameHome(start, bc.disk, old(bc.disk)) && bc.disk[start] == old(bc.disk[start])
    {
      ThreeOperations(first, data);
      ok := EndOp();
      ok := EndOp();
      ok := EndOp();
    }
  }
}
