/** Crash safety of the write sequences that Log.Commit and Log.RecoverFromLog
    make: cut one off after any number of disk writes and the disk still recovers
    to the image before the transaction or to the one after it. */
module LogCrash {
  import opened Blocks
  import opened BufList
  import opened Bio
  import opened Log
  import LogProtocol

  /** The disk when commit starts: an empty log over the image `before`, and the
      cache contents `img`, which differ from it only on the logged blocks. */
  ghost predicate BeforeCommit(d: Image, start: nat, lh: seq<nat>, img: Image, before: Image) {
    && LogReadable(d, start) && HeaderCount(d, start) == 0 && RecoversTo(d, start, before)
    && |img| == |d| && HomeBlocks(start, |d|, lh) && lh != [] && d[start] == img[start]
    && forall b :: 0 <= b < |d| && !InLog(start, b) && b !in lh ==> d[b] == img[b]
  }

  /** The disk after the first k writes of commit. */
  ghost predicate AfterWrites(dk: Image, d: Image, start: nat, lh: seq<nat>, img: Image, before: Image, k: nat)
    requires BeforeCommit(d, start, lh, img, before)
  {
    && LogReadable(dk, start) && |dk| == |d|
    && if k <= |lh| then
         && dk[start] == d[start] && SameHome(start, dk, d) && RecoversTo(dk, start, before)
         && forall j :: 0 <= j < k ==> dk[start + 1 + j] == img[lh[j]]
       else if k <= 2 * |lh| + 1 then
         && HeaderBlocks(dk, start) == lh && RecoversTo(dk, start, img)
         && dk[start] == HeaderBlock(img[start], lh)
         && LogProtocol.Installed(dk, start, lh, k - |lh| - 1)
       else
         HeaderCount(dk, start) == 0 && RecoversTo(dk, start, img) && SameHome(start, dk, img)
  }

  lemma LogBlockWrite(dk: Image, d: Image, start: nat, lh: seq<nat>, img: Image, before: Image, k: nat)
    requires BeforeCommit(d, start, lh, img, before) && k < |lh|
    requires AfterWrites(dk, d, start, lh, img, before, k)
    ensures CommitWrites(img, start, lh)[k] == Write(start + 1 + k, img[lh[k]])
    ensures AfterWrites(dk[start + 1 + k := img[lh[k]]], d, start, lh, img, before, k + 1)
  {
    assert HeaderBlocks(dk[start + 1 + k := img[lh[k]]], start) == [];
  }

  lemma HeaderWrite(dk: Image, d: Image, start: nat, lh: seq<nat>, img: Image, before: Image)
    requires BeforeCommit(d, start, lh, img, before) && AfterWrites(dk, d, start, lh, img, before, |lh|)
    ensures CommitWrites(img, start, lh)[|lh|] == Write(start, HeaderBlock(dk[start], lh))
    ensures AfterWrites(dk[start := HeaderBlock(dk[start], lh)], d, start, lh, img, before, |lh| + 1)
  {
    LogProtocol.HeadCommitsImage(dk, start, lh, img);
  }

  lemma InstallWrite(dk: Image, d: Image, start: nat, lh: seq<nat>, img: Image, before: Image, i: nat)
    requires BeforeCommit(d, start, lh, img, before) && i < |lh|
    requires AfterWrites(dk, d, start, lh, img, before, |lh| + 1 + i)
    ensures CommitWrites(img, start, lh)[|lh| + 1 + i] == Write(lh[i], img[lh[i]])
    ensures AfterWrites(dk[lh[i] := img[lh[i]]], d, start, lh, img, before, |lh| + 1 + i + 1)
  {
    assert CommitWrites(img, start, lh)[|lh| + 1 + i] == HomeWrites(img, lh)[i];
    assert dk[start + 1 + i] == img[HeaderBlocks(dk, start)[i]];
    LogProtocol.InstallKeepsImage(dk, start, lh, i, img);
  }

  lemma ClearWrite(dk: Image, d: Image, start: nat, lh: seq<nat>, img: Image, before: Image)
    requires BeforeCommit(d, start, lh, img, before)
    requires AfterWrites(dk, d, start, lh, img, before, 2 * |lh| + 1)
    ensures CommitWrites(img, start, lh)[2 * |lh| + 1] == Write(start, HeaderBlock(dk[start], []))
    ensures AfterWrites(dk[start := HeaderBlock(dk[start], [])], d, start, lh, img, before, 2 * |lh| + 2)
  {
    LogProtocol.ClearKeepsImage(dk, start, lh, img);
  }

  lemma CommitShape(dk: Image, d: Image, start: nat, lh: seq<nat>, img: Image, before: Image, k: nat)
    requires BeforeCommit(d, start, lh, img, before) && AfterWrites(dk, d, start, lh, img, before, k)
    ensures |CommitWrites(img, start, lh)| == 2 * |lh| + 2 && |dk| == |d|
    ensures start + LOGBLOCKS < |dk| && |lh| <= LOGBLOCKS && forall i :: 0 <= i < |lh| ==> lh[i] < |dk|
  {
  }

  lemma OneMoreWrite(dk: Image, d: Image, start: nat, lh: seq<nat>, img: Image, before: Image, k: nat)
    requires BeforeCommit(d, start, lh, img, before) && k < |CommitWrites(img, start, lh)|
    requires AfterWrites(dk, d, start, lh, img, before, k)
    ensures var w := CommitWrites(img, start, lh)[k];
            w.bno < |dk| && AfterWrites(dk[w.bno := w.data], d, start, lh, img, before, k + 1)
  {
    hide AfterWrites, CommitWrites, HomeBlocks, LogReadable, RecoversTo;
    var n := |lh|;
    CommitShape(dk, d, start, lh, img, before, k);
    if k < n {
      LogBlockWrite(dk, d, start, lh, img, before, k);
    } else if k == n {
      HeaderWrite(dk, d, start, lh, img, before);
    } else if k < 2 * n + 1 {
      InstallWrite(dk, d, start, lh, img, before, k - n - 1);
    } else {
      ClearWrite(dk, d, start, lh, img, before);
    }
  }

  lemma {:induction false} AfterPrefix(d: Image, start: nat, lh: seq<nat>, img: Image, before: Image, k: nat)
    requires BeforeCommit(d, start, lh, img, before)
    requires k <= |CommitWrites(img, start, lh)| && OnDisk(CommitWrites(img, start, lh), |d|)
    ensures AfterWrites(Apply(d, CommitWrites(img, start, lh)[..k]), d, start, lh, img, before, k)
  {
    hide AfterWrites, CommitWrites;
    var ws := CommitWrites(img, start, lh);
    if k == 0 {
      assert ws[..0] == [];
      NoWrites(d, start, lh, img, before);
    } else {
      AfterPrefix(d, start, lh, img, before, k - 1);
      OneMoreWrite(Apply(d, ws[..k - 1]), d, start, lh, img, before, k - 1);
      assert ws[..k][..k - 1] == ws[..k - 1] && ws[..k][k - 1] == ws[k - 1];
    }
  }

  lemma NoWrites(d: Image, start: nat, lh: seq<nat>, img: Image, before: Image)
    requires BeforeCommit(d, start, lh, img, before)
    ensures AfterWrites(d, d, start, lh, img, before, 0)
  {
  }

  /** Commit cut off after any k of its disk writes: recovery will find either the
      image from before the transaction or the whole transaction, and it is the
      header write that decides. */
  lemma CommitCutOff(d: Image, start: nat, lh: seq<nat>, img: Image, before: Image, k: nat)
    requires BeforeCommit(d, start, lh, img, before)
    requires k <= |CommitWrites(img, start, lh)| && OnDisk(CommitWrites(img, start, lh), |d|)
    ensures var dk := Apply(d, CommitWrites(img, start, lh)[..k]);
            LogReadable(dk, start) && RecoversTo(dk, start, if k <= |lh| then before else img)
  {
    hide CommitWrites;
    AfterPrefix(d, start, lh, img, before, k);
  }

  // ---- recovery, itself cut off ----

  /** The disk after the first k writes of recovery from d. */
  ghost predicate AfterReplay(dk: Image, d: Image, start: nat, k: nat)
    requires LogReadable(d, start)
  {
    var lh := HeaderBlocks(d, start);
    && LogReadable(dk, start) && |dk| == |d|
    && if k <= |lh| then
         && HeaderBlocks(dk, start) == lh && dk[start] == d[start]
         && (forall b :: start < b <= start + |lh| ==> dk[b] == d[b])
         && LogProtocol.Installed(dk, start, lh, k)
       else
         HeaderCount(dk, start) == 0
  }

  lemma ReplayInstall(dk: Image, d: Image, start: nat, k: nat, img: Image)
    requires LogReadable(d, start) && k < |HeaderBlocks(d, start)|
    requires AfterReplay(dk, d, start, k) && RecoversTo(dk, start, img)
    ensures var lh := HeaderBlocks(d, start);
            var dk' := dk[lh[k] := d[start + 1 + k]];
            && RecoverWrites(d, start)[k] == Write(lh[k], d[start + 1 + k])
            && AfterReplay(dk', d, start, k + 1) && RecoversTo(dk', start, img)
  {
    LogProtocol.InstallKeepsImage(dk, start, HeaderBlocks(d, start), k, img);
  }

  lemma ReplayClear(dk: Image, d: Image, start: nat, img: Image)
    requires LogReadable(d, start)
    requires AfterReplay(dk, d, start, |HeaderBlocks(d, start)|) && RecoversTo(dk, start, img)
    ensures var lh := HeaderBlocks(d, start);
            var dk' := dk[start := HeaderBlock(d[start], [])];
            && RecoverWrites(d, start)[|lh|] == Write(start, HeaderBlock(d[start], []))
            && AfterReplay(dk', d, start, |lh| + 1) && RecoversTo(dk', start, img) && SameHome(start, dk', img)
  {
    LogProtocol.ClearKeepsImage(dk, start, HeaderBlocks(d, start), img);
  }

  lemma {:induction false} ReplayPrefix(d: Image, start: nat, img: Image, k: nat)
    requires LogReadable(d, start) && RecoversTo(d, start, img)
    requires k <= |RecoverWrites(d, start)| && OnDisk(RecoverWrites(d, start), |d|)
    ensures var dk := Apply(d, RecoverWrites(d, start)[..k]);
            && AfterReplay(dk, d, start, k) && RecoversTo(dk, start, img)
            && (k == |RecoverWrites(d, start)| ==> SameHome(start, dk, img))
  {
    hide RecoverWrites, HeaderBlocks, HomeBlocks, RecoversTo, SameHome, AfterReplay;
    var ws, lh := RecoverWrites(d, start), HeaderBlocks(d, start);
    ReplayShape(d, start);
    if k == 0 {
      assert ws[..0] == [];
    } else {
      ReplayPrefix(d, start, img, k - 1);
      assert ws[..k][..k - 1] == ws[..k - 1] && ws[..k][k - 1] == ws[k - 1];
      var dk := Apply(d, ws[..k - 1]);
      if k <= |lh| {
        ReplayInstall(dk, d, start, k - 1, img);
      } else {
        ReplayClear(dk, d, start, img);
      }
    }
  }

  lemma ReplayShape(d: Image, start: nat)
    requires LogReadable(d, start)
    ensures |RecoverWrites(d, start)| == |HeaderBlocks(d, start)| + 1 && OnDisk(RecoverWrites(d, start), |d|)
    ensures start + |HeaderBlocks(d, start)| < |d| && AfterReplay(d, d, start, 0)
  {
  }

  /** The disk after recovery attempts on d, attempt i cut off after cuts[i] writes. */
  ghost predicate CutOffRecoveries(d: Image, start: nat, cuts: seq<nat>, d': Image)
    decreases |cuts|
  {
    if cuts == [] then d' == d
    else
      && LogReadable(d, start) && cuts[0] <= |RecoverWrites(d, start)| && OnDisk(RecoverWrites(d, start), |d|)
      && CutOffRecoveries(Apply(d, RecoverWrites(d, start)[..cuts[0]]), start, cuts[1..], d')
  }

  /** However often recovery is cut off, and wherever, the image the log commits
      to stays the same. */
  lemma {:induction false} CutOffRecoveriesKeepImage(d: Image, start: nat, cuts: seq<nat>, d': Image, img: Image)
    requires LogReadable(d, start) && RecoversTo(d, start, img) && CutOffRecoveries(d, start, cuts, d')
    ensures LogReadable(d', start) && RecoversTo(d', start, img)
    decreases |cuts|
  {
    hide RecoverWrites, RecoversTo;
    if cuts != [] {
      ReplayPrefix(d, start, img, cuts[0]);
      CutOffRecoveriesKeepImage(Apply(d, RecoverWrites(d, start)[..cuts[0]]), start, cuts[1..], d', img);
    }
  }

  /** The whole story: commit cut off after k writes, recovery cut off any number
      of times, then run to its end.  Every home block is as before the
      transaction, or every home block is as the transaction left it. */
  lemma CrashSafety(d: Image, start: nat, lh: seq<nat>, img: Image, before: Image, k: nat, cuts: seq<nat>, d': Image)
    requires BeforeCommit(d, start, lh, img, before)
    requires k <= |CommitWrites(img, start, lh)| && OnDisk(CommitWrites(img, start, lh), |d|)
    requires CutOffRecoveries(Apply(d, CommitWrites(img, start, lh)[..k]), start, cuts, d')
    ensures LogReadable(d', start) && OnDisk(RecoverWrites(d', start), |d'|)
    ensures SameHome(start, Apply(d', RecoverWrites(d', start)), if k <= |lh| then before else img)
  {
    hide RecoverWrites, CommitWrites, RecoversTo, HomeBlocks, SameHome, CutOffRecoveries;
    var target := if k <= |lh| then before else img;
    CommitCutOff(d, start, lh, img, before, k);
    CutOffRecoveriesKeepImage(Apply(d, CommitWrites(img, start, lh)[..k]), start, cuts, d', target);
    ReplayShape(d', start);
    ReplayPrefix(d', start, target, |RecoverWrites(d', start)|);
    assert RecoverWrites(d', start)[..|RecoverWrites(d', start)|] == RecoverWrites(d', start);
  }

  // ---- the log object ----

  /** A log that has recovered, with something to commit, is where CrashSafety starts:
      what the disk holds is the image from before the transaction. */
  lemma ReadyToCommit(log: Log)
    requires log.Recovered() && log.n > 0
    ensures BeforeCommit(log.bc.disk, log.start, log.block[..log.n], log.bc.latest, log.bc.disk)
  {
    hide Linked, Unique, Counted, PinsMatch;
    var d, lh := log.bc.disk, log.block[..log.n];
    assert HeaderBlocks(d, log.start) == [];
    assert lh[0..] == lh;
    assert log.start !in log.bc.dirty;
  }

  lemma CommitOnDisk(d: Image, start: nat, lh: seq<nat>, img: Image, before: Image)
    requires BeforeCommit(d, start, lh, img, before)
    ensures OnDisk(CommitWrites(img, start, lh), |d|)
  {
  }

  /** A crash after the first j of the writes, and recoveries cut off at will before one
      that ends, leave the home blocks of `before` or those of img. */
  ghost predicate Survives(d: Image, start: nat, lh: seq<nat>, img: Image, j: nat)
    requires start < |img| && HomeBlocks(start, |img|, lh) && j <= |CommitWrites(img, start, lh)|
    requires OnDisk(CommitWrites(img, start, lh), |d|)
  {
    forall cuts, d' :: CutOffRecoveries(Apply(d, CommitWrites(img, start, lh)[..j]), start, cuts, d') ==>
      && LogReadable(d', start) && OnDisk(RecoverWrites(d', start), |d'|)
      && SameHome(start, Apply(d', RecoverWrites(d', start)), if j <= |lh| then d else img)
  }

  lemma AllSurvive(d: Image, start: nat, lh: seq<nat>, img: Image, j: nat)
    requires BeforeCommit(d, start, lh, img, d)
    requires j <= |CommitWrites(img, start, lh)| && OnDisk(CommitWrites(img, start, lh), |d|)
    ensures Survives(d, start, lh, img, j)
  {
    assert start < |img| && HomeBlocks(start, |img|, lh);
    hide RecoverWrites, CommitWrites, SameHome, CutOffRecoveries, BeforeCommit, LogReadable;
    forall cuts, d' | CutOffRecoveries(Apply(d, CommitWrites(img, start, lh)[..j]), start, cuts, d')
      ensures LogReadable(d', start) && OnDisk(RecoverWrites(d', start), |d'|)
      ensures SameHome(start, Apply(d', RecoverWrites(d', start)), if j <= |lh| then d else img)
    {
      CrashSafety(d, start, lh, img, d, j, cuts, d');
    }
  }

  /** commit on a log that has recovered: it makes its first k writes, in order, and a
      crash after any of them, or none, is survived.  If it fails for lack of a buffer the
      disk recovers to the image from before. */
  method CommitSurvivesCrashes(log: Log) returns (ok: bool, ghost k: nat)
    requires log.Recovered() && log.NoneLocked() && log.n > 0
    modifies log`n, log.bc`holders, log.bc`order, log.bc`disk, log.bc`latest, log.bc`dirty, log.bc`trace, log.bc`pins
    modifies log.bc.buf
    ensures ok <==> old(log.CanCommit())
    ensures ok ==> log.Recovered() && log.n == 0
    ensures OnDisk(CommitWrites(old(log.bc.latest), log.start, old(log.block[..log.n])), |old(log.bc.disk)|)
    ensures k <= |CommitWrites(old(log.bc.latest), log.start, old(log.block[..log.n]))| && (!ok ==> k <= old(log.n))
    ensures Wrote(old(log.bc.disk), old(log.bc.trace),
                  CommitWrites(old(log.bc.latest), log.start, old(log.block[..log.n]))[..k], log.bc.disk, log.bc.trace)
    ensures forall j :: 0 <= j <= k ==>
              Survives(old(log.bc.disk), log.start, old(log.block[..log.n]), old(log.bc.latest), j)
  {
    hide CommitWrites, Wrote, Survives, OnDisk, BeforeCommit;
    ghost var d, lh, img := log.bc.disk, log.block[..log.n], log.bc.latest;
    ReadyToCommit(log);
    CommitOnDisk(d, log.start, lh, img, d);
    ok, k := log.Commit();
    ghost var ws := CommitWrites(img, log.start, lh);
    assert ok ==> ws[..k] == ws;
    forall j | 0 <= j <= k
      ensures Survives(d, log.start, lh, img, j)
    {
      AllSurvive(d, log.start, lh, img, j);
    }
  }
}
