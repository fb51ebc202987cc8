/**
 Exactly what one turn of the updater comes to: whether it installs, what a
 check records, when the next turn comes, and what an install leaves behind in
 each of its outcomes.
 */
module UpdateOutcomes {
  import opened Results
  import opened NodeConfig
  import opened Update
  import opened UpdateLaws

  // ---------------- the turn --------------------------------------------

  /** Seconds between two turns, never less than a minute. */
  function Period(config: UpdateConfig): nat {
    if config.checkInterval >= 60 then config.checkInterval else 60
  }

  /** A disabled updater still answers a click, and only that. */
  predicate LooksAtTheChannel(t: Turn) {
    t.config.enabled || t.request == Check || t.request == Install
  }

  /**
   A turn installs if and only if it reaches the channel, and either somebody
   clicked Install or the channel offers another commit than the running one to
   a release build that may update itself and is told to.
   */
  lemma InstallsExactly(env: Env, n: Node, t: Turn)
    ensures InstallStart(env, n, t).Some? <==>
            && LooksAtTheChannel(t) && t.answer.Offered?
            && (|| t.request == Install
                || (&& t.answer.manifest.commit != env.commitOf(n.running)
                    && t.config.auto && env.distBuild && env.canSelfUpdate))
  {
  }

  /** What a turn leaves that does not get as far as an install: the files and the running build stay. */
  lemma OtherTurnsRecord(env: Env, n: Node, t: Turn)
    requires InstallStart(env, n, t).None?
    ensures var m := Passed(env, n, t);
            && m.files == n.files && m.running == n.running
            && (!LooksAtTheChannel(t) ==> m == n.(wait := Period(t.config)))
            && (LooksAtTheChannel(t) && t.answer.Offered? ==> Checked(env, n, m, t) && m.wait == Period(t.config))
            && (LooksAtTheChannel(t) && !t.answer.Offered? ==>
                  && m.lastError && m.phase == Idle && m.latest == n.latest && m.lastCheckAt == n.lastCheckAt
                  && (n.retry.None? ==> m.wait == 30)
                  && (n.retry.Some? ==> m.wait == Shorter(n.retry.value * 2, Period(t.config)))
                  && m.retry == Some(m.wait))
  {
    hide Installed;
  }

  function Shorter(a: nat, b: nat): nat {
    if a <= b then a else b
  }

  /** What a check that was answered records. */
  predicate Checked(env: Env, n: Node, m: Node, t: Turn)
    requires t.answer.Offered?
  {
    && !m.lastError && m.phase == Idle && m.lastCheckAt == Some(t.now) && m.retry == None
    && m.latest == if t.answer.manifest.commit == env.commitOf(n.running) then None else Some(t.answer.manifest)
  }

  /** A turn that installs has checked first, and does nothing but install what the check found. */
  lemma InstallingTurns(env: Env, n: Node, t: Turn)
    requires InstallStart(env, n, t).Some?
    ensures var start := InstallStart(env, n, t).value;
            && Passed(env, n, t) == Installed(env, start, t.fate) && Checked(env, n, start, t)
            && start.files == n.files && start.running == n.running && start.wait == Period(t.config)
  {
    hide Installed;
  }

  // ---------------- the install -----------------------------------------

  /** Where a download does not get through whole: no stream, a cut one, or a failing step of the disk. */
  predicate DownloadFails(fate: Fate) {
    || fate.download.NoAnswer? || fate.download.HttpError? || !fate.createOk
    || (fate.download.Stream? && (fate.download.cut || |fate.download.chunks| > fate.writable))
    || !fate.syncOk || !fate.chmodOk
  }

  /** The download, put together from its chunks in order. */
  lemma {:induction false} JoinedInOrder(a: seq<Bytes>, b: seq<Bytes>)
    ensures Joined([]) == [] && Joined(a + b) == Joined(a) + Joined(b)
    ensures forall chunk :: Joined([chunk]) == chunk
    decreases |b|
  {
    forall chunk: Bytes ensures Joined([chunk]) == chunk {
      assert [chunk][..0] == [] && [] + chunk == chunk;
    }
    if b == [] {
      assert a + b == a && Joined(a) + [] == Joined(a);
    } else {
      var n := |b| - 1;
      assert (a + b)[..|a + b| - 1] == a + b[..n];
      JoinedInOrder(a, b[..n]);
      assert Joined(a) + Joined(b[..n]) + b[n] == Joined(a) + (Joined(b[..n]) + b[n]);
    }
  }

  /** What an install without a target comes to. */
  lemma NothingToInstall(env: Env, n: Node, fate: Fate)
    requires || n.latest.None? || !env.canSelfUpdate || env.asset.None? || !env.hasDirectory
             || env.asset.value !in n.latest.value.assets
    ensures Installed(env, n, fate) == n.(phase := Idle, lastError := true)
  {
  }

  /** The manifest's entry for this kind of node. */
  predicate Wants(env: Env, n: Node, digest: string) {
    && n.latest.Some? && env.canSelfUpdate && env.asset.Some? && env.hasDirectory
    && env.asset.value in n.latest.value.assets && n.latest.value.assets[env.asset.value] == digest
  }

  /**
   A download that does not come through whole, or that is not trusted, leaves
   the path, its backup and the running build alone, is reported, and its
   staging file is removed.
   */
  lemma FailedDownloadsAreCleaned(env: Env, n: Node, fate: Fate, digest: string)
    requires Wants(env, n, digest) && !AlreadyInstalled(env, n.files, digest, fate)
    requires DownloadFails(fate) || !Trusted(env, digest, Joined(fate.download.chunks))
    ensures var m := Installed(env, n, fate);
            && m.files.path == n.files.path && m.files.prev == n.files.prev && m.running == n.running
            && m.lastError && m.phase == Idle && m.latest == n.latest
            && (fate.cleanupOk ==> m.files.tmp.None?)
  {
    hide Trusted, AlreadyInstalled;
    if Arrives(fate) { LandedWhole(fate); }
    hide Landed;
  }

  /** A node that restarts starts over: it runs what is at the path and has not looked at the channel yet. */
  predicate StartsOver(m: Node, path: Bytes) {
    && m.running == path && m.files.path == Some(path)
    && m.latest == None && m.phase == Idle && !m.lastError && m.lastCheckAt == None && m.wait == 0 && m.retry == None
  }

  /** A restart that does not happen leaves the build running that ran, and is reported. */
  predicate StaysUp(n: Node, m: Node) {
    && m.running == n.running && m.lastError && m.phase == Idle && m.latest == n.latest
    && m.lastCheckAt == n.lastCheckAt && m.wait == n.wait && m.retry == n.retry
  }

  /** A build that is at the path already is not downloaded again, only started. */
  lemma InstalledBuildIsStarted(env: Env, n: Node, fate: Fate, digest: string)
    requires Wants(env, n, digest) && AlreadyInstalled(env, n.files, digest, fate)
    ensures var m := Installed(env, n, fate);
            && m.files == n.files
            && (fate.execOk ==> StartsOver(m, n.files.path.value)) && (!fate.execOk ==> StaysUp(n, m))
  {
    hide SameDigest;
  }

  /** A whole and trusted download, and what becomes of it by the renames and the restart. */
  lemma WholeDownloadsAreSwappedIn(env: Env, n: Node, fate: Fate, digest: string)
    requires Wants(env, n, digest) && !AlreadyInstalled(env, n.files, digest, fate)
    requires !DownloadFails(fate) && Trusted(env, digest, Joined(fate.download.chunks))
    ensures var m, build, was := Installed(env, n, fate), Joined(fate.download.chunks), n.files.path;
            var asideOk := was.None? || fate.backupOk;
            && (asideOk && fate.renameOk ==>
                  && m.files == Files(Some(build), if was.Some? then was else n.files.prev, None)
                  && (fate.execOk ==> StartsOver(m, build)) && (!fate.execOk ==> StaysUp(n, m)))
            && (!(asideOk && fate.renameOk) ==>
                  && StaysUp(n, m) && (fate.cleanupOk ==> m.files.tmp.None?)
                  && (was.None? || !asideOk ==> m.files.path == was && m.files.prev == n.files.prev)
                  && (was.Some? && asideOk && fate.rollbackOk ==> m.files.path == was && m.files.prev == None)
                  && (was.Some? && asideOk && !fate.rollbackOk ==> m.files.path == None && m.files.prev == was))
  {
    hide Trusted, AlreadyInstalled;
    LandedWhole(fate);
    hide Landed;
  }

  /** Recognising what is installed takes a readable file with the manifest's digest. */
  lemma InstalledIsRecognised(env: Env, f: Files, digest: string, fate: Fate)
    ensures AlreadyInstalled(env, f, digest, fate) <==>
            f.path.Some? && fate.readable && SameDigest(digest, env.sha256(f.path.value))
  {
    if f.path.Some? { SameDigestIsSymmetric(digest, env.sha256(f.path.value)); }
  }
}
