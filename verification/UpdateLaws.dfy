/**
 What self-update promises: only a build that has the published digest and
 passed its probes reaches the install path, and a failed install or a failed
 restart leaves a build to fall back to.
 */
module UpdateLaws {
  import opened Arithmetic
  import opened Results
  import opened NodeConfig
  import opened Update

  // ---------------- one install -----------------------------------------

  /** Only the swap touches the install path or its backup, and only for a trusted download. */
  lemma VerifiedTouches(env: Env, f: Files, expected: string, fate: Fate)
    ensures var (g, ok) := Verified(env, f, expected, fate);
            && (ok ==> g.path.Some? && Trusted(env, expected, g.path.value)
                       && g.prev == (if f.path.Some? then f.path else f.prev))
            && (!ok ==>
                  || (g.path == f.path && g.prev == f.prev)
                  || (g.path == f.path && g.prev == None && f.path.Some? && fate.rollbackOk)
                  || (g.path == None && g.prev == f.path && f.path.Some? && !fate.rollbackOk))
  {
    hide Trusted, Landed;
  }

  /**
   Bytes reach the install path only with the manifest's digest and a passed
   preflight. When anything fails before or inside the swap the path keeps its
   bytes, unless even moving the old binary back fails, and then `.prev` has it.
   */
  lemma InstallIsSafe(env: Env, n: Node, fate: Fate)
    ensures var f, g := n.files, Installed(env, n, fate).files;
            || g.path == f.path
            || (Wanted(env, n).Some? && g.path.Some? && Trusted(env, Wanted(env, n).value, g.path.value))
            || (g.path.None? && f.path.Some? && g.prev == f.path && !fate.rollbackOk)
  {
    hide Trusted, Verified;
    if Wanted(env, n).Some? {
      VerifiedTouches(env, n.files, Wanted(env, n).value, fate);
    }
  }

  /** What runs after an install ran before it, or was just taken from the install path. */
  lemma RunningIsInstalled(env: Env, n: Node, fate: Fate)
    ensures var m := Installed(env, n, fate);
            m.running == n.running || m.files.path == Some(m.running)
  {
    hide Verified, AlreadyInstalled;
  }

  /** What an install puts in place of a binary at the path: a build it wants, has in full and trusts. */
  predicate SetsAside(env: Env, n: Node, fate: Fate) {
    && Wanted(env, n).Some? && n.files.path.Some? && fate.backupOk && fate.chmodOk && Arrives(fate)
    && !AlreadyInstalled(env, n.files, Wanted(env, n).value, fate)
    && Trusted(env, Wanted(env, n).value, Joined(fate.download.chunks))
  }

  /** The files after an install that sets the old binary aside, by the two renames that follow. */
  lemma SetAside(env: Env, n: Node, fate: Fate)
    requires SetsAside(env, n, fate)
    ensures var landed, m := Joined(fate.download.chunks), Installed(env, n, fate);
            if fate.renameOk then
              && m.files == Files(Some(landed), n.files.path, None)
              && m.running == (if fate.execOk then landed else n.running)
            else
              && m.running == n.running
              && (if fate.rollbackOk then m.files.path == n.files.path && m.files.prev == None
                  else m.files.path == None && m.files.prev == n.files.path)
  {
    hide Trusted, AlreadyInstalled;
  }

  /** Without that, `.prev` is not touched, and a build only lands where there was none. */
  lemma NotSetAside(env: Env, n: Node, fate: Fate)
    requires !SetsAside(env, n, fate)
    ensures var m := Installed(env, n, fate);
            && m.files.prev == n.files.prev && (n.files.path.Some? ==> m.files.path == n.files.path)
            && (m.running == n.running || m.files.path == Some(m.running))
  {
    hide Trusted, AlreadyInstalled, Landed;
    if Arrives(fate) { LandedWhole(fate); }
  }

  lemma LandedWhole(fate: Fate)
    requires Arrives(fate)
    ensures Landed(fate.download.chunks, fate) == Joined(fate.download.chunks)
  {
  }

  /**
   After an install that swapped a binary in over another, `.prev` is the one
   that was there. It differs from the installed one if and only if it could be
   read, or the two differ: a readable build is recognised and never set aside
   for itself, an unreadable one is.
   */
  lemma BackupDiffersExactly(env: Env, n: Node, fate: Fate)
    requires SetsAside(env, n, fate) && fate.renameOk
    ensures var g := Installed(env, n, fate).files;
            && g.prev == n.files.path && g.path == Some(Joined(fate.download.chunks))
            && (g.prev != g.path <==> fate.readable || Some(Joined(fate.download.chunks)) != n.files.path)
  {
    hide Preflighted, SameDigest;
    SetAside(env, n, fate);
    SameDigestIsSymmetric(Wanted(env, n).value, env.sha256(n.files.path.value));
    hide Installed;
  }

  lemma SameDigestIsSymmetric(a: string, b: string)
    ensures SameDigest(a, b) == SameDigest(b, a)
  {
  }

  /** A fate in which nothing goes wrong until the restart. */
  predicate Delivers(fate: Fate, build: Bytes) {
    && Arrives(fate) && Joined(fate.download.chunks) == build
    && fate.chmodOk && fate.backupOk && fate.renameOk
  }

  lemma DeliveredLands(env: Env, f: Files, expected: string, fate: Fate, build: Bytes)
    requires Delivers(fate, build) && Trusted(env, expected, build)
    ensures Verified(env, f, expected, fate) ==
            (Files(Some(build), if f.path.Some? then f.path else f.prev, None), true)
  {
    hide Trusted;
  }

  /** If the installed build cannot be read, installing it again overwrites the backup with itself. */
  lemma UnreadableLosesTheBackup(env: Env, n: Node, fate: Fate)
    requires n.files.path.Some? && !fate.readable && Wanted(env, n).Some?
    requires Delivers(fate, n.files.path.value) && Trusted(env, Wanted(env, n).value, n.files.path.value)
    ensures var g := Installed(env, n, fate).files;
            g.path == n.files.path && g.prev == n.files.path
  {
    hide Trusted, Delivers, Verified;
    DeliveredLands(env, n.files, Wanted(env, n).value, fate, n.files.path.value);
  }

  // ---------------- exactly when the running build is lost ---------------

  /** The running build is at the install path or at `.prev`. */
  predicate OnDisk(n: Node) {
    n.files.path == Some(n.running) || n.files.prev == Some(n.running)
  }

  /** An install that cannot cost the node its running build. */
  predicate Spares(env: Env, n: Node, fate: Fate) {
    || n.files.path == Some(n.running)
    || !SetsAside(env, n, fate)
    || (fate.renameOk && (fate.execOk || Joined(fate.download.chunks) == n.running))
  }

  /**
   An install loses the running build exactly when that is only at `.prev` and
   another build at the path is set aside over it, unless the new build then
   runs, or is the one that runs. A rename that fails is enough, even when the
   way back works: that takes the other build back and leaves no `.prev`.
   */
  lemma RunningBuildStaysExactly(env: Env, n: Node, fate: Fate)
    requires OnDisk(n)
    ensures OnDisk(Installed(env, n, fate)) <==> Spares(env, n, fate)
  {
    hide Installed, SetsAside;
    if SetsAside(env, n, fate) {
      SetAside(env, n, fate);
      PathIsSome(env, n, fate);
    } else {
      NotSetAside(env, n, fate);
    }
  }

  lemma PathIsSome(env: Env, n: Node, fate: Fate)
    requires SetsAside(env, n, fate)
    ensures n.files.path.Some?
  {
  }

  /** Whether a turn gets as far as an install, and in which state. */
  function InstallStart(env: Env, n: Node, t: Turn): Option<Node> {
    if !t.config.enabled && t.request == Timer then None
    else
      var outcome := CheckOutcome(env, n.running, t.answer);
      if outcome == CheckFailed || !InstallsNow(env, t, outcome) then None
      else Some(AfterCheck(env, n.(wait := Interval(t.config)), t.answer, t.now).(retry := None))
  }

  predicate SparesAll(env: Env, n: Node, turns: seq<Turn>)
    decreases |turns|
  {
    turns != [] ==>
      && (InstallStart(env, n, turns[0]).Some? ==> Spares(env, InstallStart(env, n, turns[0]).value, turns[0].fate))
      && SparesAll(env, Passed(env, n, turns[0]), turns[1..])
  }

  lemma PassStaysExactly(env: Env, n: Node, t: Turn)
    requires OnDisk(n)
    ensures OnDisk(Passed(env, n, t)) <==>
            (InstallStart(env, n, t).Some? ==> Spares(env, InstallStart(env, n, t).value, t.fate))
  {
    hide Installed, Spares;
    var start := InstallStart(env, n, t);
    if start.Some? {
      RunningBuildStaysExactly(env, start.value, t.fate);
    }
  }

  /** Over every run whose installs all spare it, whatever is published, the running build is on disk. */
  lemma {:induction false} SparedBuildStays(env: Env, n: Node, turns: seq<Turn>)
    requires OnDisk(n) && SparesAll(env, n, turns)
    ensures OnDisk(Run(env, n, turns))
    decreases |turns|
  {
    hide Passed, OnDisk, Spares, InstallStart;
    if turns != [] {
      PassStaysExactly(env, n, turns[0]);
      SparedBuildStays(env, Passed(env, n, turns[0]), turns[1..]);
    }
  }

  // ---------------- a build to fall back to -----------------------------

  /** The running build is on disk: at the path, or set aside for the build published as `expected`. */
  predicate Recoverable(env: Env, n: Node, expected: string) {
    || n.files.path == Some(n.running)
    || (n.files.prev == Some(n.running)
        && (n.files.path.None? || SameDigest(env.sha256(n.files.path.value), expected)))
  }

  /** What the channel offers, if anything, is the build published as `expected`. */
  predicate Publishes(env: Env, t: Turn, expected: string) {
    t.answer.Offered? && env.asset.Some? && env.asset.value in t.answer.manifest.assets ==>
      t.answer.manifest.assets[env.asset.value] == expected
  }

  lemma InstallKeepsRunning(env: Env, n: Node, fate: Fate, expected: string)
    requires Recoverable(env, n, expected) && fate.readable
    requires Wanted(env, n).Some? ==> Wanted(env, n).value == expected
    ensures Recoverable(env, Installed(env, n, fate), expected)
  {
    hide Verified, SameDigest, Preflighted;
    if Wanted(env, n).Some? {
      VerifiedTouches(env, n.files, expected, fate);
      var (g, ok) := Verified(env, n.files, expected, fate);
      if ok {
        SameDigestIsSymmetric(expected, env.sha256(g.path.value));
      }
    }
  }

  lemma PassKeepsRunning(env: Env, n: Node, t: Turn, expected: string)
    requires Recoverable(env, n, expected) && Publishes(env, t, expected) && t.fate.readable
    ensures Recoverable(env, Passed(env, n, t), expected)
  {
    hide Installed, SameDigest;
    if t.config.enabled || t.request != Timer {
      var checked := AfterCheck(env, n.(wait := Interval(t.config)), t.answer, t.now).(retry := None);
      if CheckOutcome(env, n.running, t.answer) != CheckFailed {
        InstallKeepsRunning(env, checked, t.fate, expected);
      }
    }
  }

  /**
   Over every run in which the published build stays the same and the file at
   the install path can be read, through any failures of downloads, probes,
   renames and restarts: the build that runs is at the install path or at
   `.prev`.
   */
  lemma {:induction false} RunningBuildSurvives(env: Env, n: Node, turns: seq<Turn>, expected: string)
    requires Recoverable(env, n, expected)
    requires forall i | 0 <= i < |turns| :: Publishes(env, turns[i], expected) && turns[i].fate.readable
    ensures var m := Run(env, n, turns);
            OnDisk(m)
    decreases |turns|
  {
    hide Passed, Publishes;
    if turns != [] {
      PassKeepsRunning(env, n, turns[0], expected);
      RunningBuildSurvives(env, Passed(env, n, turns[0]), turns[1..], expected);
    }
  }

  /** A turn that downloads `build` for `manifest` and then fails to restart. */
  predicate InstallsWithoutRestart(env: Env, n: Node, t: Turn, build: Bytes) {
    && t.request == Install && t.answer.Offered? && t.answer.manifest.commit != env.commitOf(n.running)
    && env.canSelfUpdate && env.hasDirectory && env.asset.Some? && env.asset.value in t.answer.manifest.assets
    && Trusted(env, t.answer.manifest.assets[env.asset.value], build)
    && Delivers(t.fate, build) && t.fate.readable && !t.fate.execOk
  }

  lemma InstalledOnly(env: Env, n: Node, t: Turn, build: Bytes)
    requires InstallsWithoutRestart(env, n, t, build) && n.files.path.Some?
    ensures var m, expected := Passed(env, n, t), t.answer.manifest.assets[env.asset.value];
            && m.running == n.running
            && (if SameDigest(env.sha256(n.files.path.value), expected) then m.files == n.files
                else m.files == Files(Some(build), n.files.path, None))
  {
    hide Trusted, Delivers, Verified, SameDigest;
    DeliveredLands(env, n.files, t.answer.manifest.assets[env.asset.value], t.fate, build);
  }

  /**
   If the published build changes between two installs that cannot restart,
   the build that runs is no longer on disk at all. Of two such installs this
   happens exactly when the second build is new to the install path.
   */
  lemma TwoPublicationsLoseTheRunningBuild(env: Env, n: Node, t: Turn, u: Turn, first: Bytes, second: Bytes)
    requires n.files.path == Some(n.running)
    requires InstallsWithoutRestart(env, n, t, first) && InstallsWithoutRestart(env, n, u, second)
    requires first != n.running && second != n.running
    requires !SameDigest(env.sha256(n.running), t.answer.manifest.assets[env.asset.value])
    ensures var m := Run(env, n, [t, u]);
            m.running == n.running && m.files.path != Some(n.running) &&
            (m.files.prev != Some(n.running) <==>
             !SameDigest(env.sha256(first), u.answer.manifest.assets[env.asset.value]))
  {
    hide Passed, SameDigest, InstallsWithoutRestart;
    Unwrapped(env, n, t, first);
    Unwrapped(env, n, u, second);
    InstalledOnly(env, n, t, first);
    var mid := Passed(env, n, t);
    SameRunning(env, n, mid, u, second);
    InstalledOnly(env, mid, u, second);
    assert Run(env, n, [t, u]) == Passed(env, mid, u) by {
      assert [t, u][1..] == [u] && [u][1..] == [];
      assert Run(env, mid, [u]) == Run(env, Passed(env, mid, u), []);
    }
  }

  lemma Unwrapped(env: Env, n: Node, t: Turn, build: Bytes)
    requires InstallsWithoutRestart(env, n, t, build)
    ensures t.answer.Offered? && env.asset.Some? && env.asset.value in t.answer.manifest.assets
  {
  }

  lemma SameRunning(env: Env, n: Node, m: Node, t: Turn, build: Bytes)
    requires m.running == n.running && InstallsWithoutRestart(env, n, t, build)
    ensures InstallsWithoutRestart(env, m, t, build)
  {
  }

  // ---------------- what may run ----------------------------------------

  /** The build the process started with, or one that passed its preflight. */
  predicate Admitted(env: Env, boot: Bytes, build: Bytes) {
    build == boot || Preflighted(env, build)
  }

  predicate OnlyAdmitted(env: Env, boot: Bytes, n: Node) {
    && Admitted(env, boot, n.running)
    && (n.files.path.Some? ==> Admitted(env, boot, n.files.path.value))
  }

  lemma InstallAdmits(env: Env, boot: Bytes, n: Node, fate: Fate)
    requires OnlyAdmitted(env, boot, n)
    ensures OnlyAdmitted(env, boot, Installed(env, n, fate))
  {
    InstallIsSafe(env, n, fate);
    RunningIsInstalled(env, n, fate);
    hide Installed, Preflighted, SameDigest;
  }

  /**
   Over every run, whatever is published and whatever fails: no build runs, and
   none lies at the install path, but the one the process started with there
   and those that passed their preflight.
   */
  lemma {:induction false} OnlyPreflightedBuildsRun(env: Env, boot: Bytes, n: Node, turns: seq<Turn>)
    requires OnlyAdmitted(env, boot, n)
    ensures OnlyAdmitted(env, boot, Run(env, n, turns))
    decreases |turns|
  {
    hide Installed, Admitted;
    if turns != [] {
      var t := turns[0];
      var woken := n.(wait := Interval(t.config));
      InstallAdmits(env, boot, AfterCheck(env, woken, t.answer, t.now).(retry := None), t.fate);
      OnlyPreflightedBuildsRun(env, boot, Passed(env, n, t), turns[1..]);
    }
  }

  // ---------------- phases and pauses -----------------------------------

  /** No run ends in the middle of a check or an install. */
  lemma {:induction false} RunEndsIdle(env: Env, n: Node, turns: seq<Turn>)
    requires n.phase == Idle
    ensures Run(env, n, turns).phase == Idle
    decreases |turns|
  {
    hide Verified, AlreadyInstalled;
    if turns != [] {
      RunEndsIdle(env, Passed(env, n, turns[0]), turns[1..]);
    }
  }

  /** The pause after `failures` failed checks in a row. */
  function Pause(failures: nat, interval: nat): Option<nat> {
    if failures == 0 then None else Some(Min(30 * Power2(failures - 1), interval))
  }

  predicate FailsToCheck(t: Turn, interval: nat) {
    (t.config.enabled || t.request != Timer) && !t.answer.Offered? && Interval(t.config) == interval
  }

  lemma PauseDoubles(failures: nat, interval: nat)
    requires interval >= MIN_CHECK_INTERVAL
    ensures Pause(failures + 1, interval) == Some(RetryDelay(Pause(failures, interval), interval))
  {
    if failures > 0 {
      assert Power2(failures) == 2 * Power2(failures - 1);
    }
  }

  /**
   The n-th failed check in a row is followed by a pause of 30 seconds doubled
   n - 1 times, never more than the configured interval; whatever is installed
   and running stays.
   */
  lemma {:induction false} FailedChecksBackOff(env: Env, n: Node, turns: seq<Turn>, failures: nat, interval: nat)
    requires interval >= MIN_CHECK_INTERVAL && n.retry == Pause(failures, interval)
    requires forall i | 0 <= i < |turns| :: FailsToCheck(turns[i], interval)
    ensures var m := Run(env, n, turns);
            && m.retry == Pause(failures + |turns|, interval)
            && (turns != [] ==> Some(m.wait) == m.retry && m.lastError)
            && m.files == n.files && m.running == n.running
    decreases |turns|
  {
    hide Pause, RetryDelay;
    if turns != [] {
      PauseDoubles(failures, interval);
      assert FailsToCheck(turns[0], interval);
      FailedChecksBackOff(env, Passed(env, n, turns[0]), turns[1..], failures + 1, interval);
    }
  }

  // ---------------- who may install -------------------------------------

  /** A turn nobody clicked Install in, on a build or a node that does not update by itself. */
  predicate Unattended(env: Env, t: Turn) {
    t.request != Install && !(env.distBuild && env.canSelfUpdate && t.config.auto)
  }

  /** A development build, or a node told not to, is never replaced without a click. */
  lemma {:induction false} UnattendedNodesStay(env: Env, n: Node, turns: seq<Turn>)
    requires forall i | 0 <= i < |turns| :: Unattended(env, turns[i])
    ensures var m := Run(env, n, turns);
            m.files == n.files && m.running == n.running
    decreases |turns|
  {
    hide Installed;
    if turns != [] {
      assert Unattended(env, turns[0]);
      UnattendedNodesStay(env, Passed(env, n, turns[0]), turns[1..]);
    }
  }

  /** An install that goes through runs the published build and keeps the one before it. */
  lemma InstallActivates(env: Env, n: Node, t: Turn, build: Bytes)
    requires t.config.enabled || t.request != Timer
    requires t.answer.Offered? && t.answer.manifest.commit != env.commitOf(n.running)
    requires t.request == Install || (t.config.auto && env.distBuild && env.canSelfUpdate)
    requires var checked := AfterCheck(env, n, t.answer, t.now);
             && Wanted(env, checked).Some?
             && !AlreadyInstalled(env, n.files, Wanted(env, checked).value, t.fate)
             && Trusted(env, Wanted(env, checked).value, build)
    requires Delivers(t.fate, build) && t.fate.execOk
    ensures var m := Passed(env, n, t);
            && m.running == build && m.files.path == Some(build)
            && (n.files.path.Some? ==> m.files.prev == n.files.path)
  {
    hide Trusted, Delivers, Verified, AlreadyInstalled;
    var checked := AfterCheck(env, n, t.answer, t.now);
    DeliveredLands(env, n.files, Wanted(env, checked).value, t.fate, build);
  }

  /** A node that runs the published build installs nothing more, not even on a click. */
  lemma {:induction false} UpToDateNodesStay(env: Env, n: Node, turns: seq<Turn>)
    requires forall i | 0 <= i < |turns| ::
               turns[i].answer.Offered? ==> turns[i].answer.manifest.commit == env.commitOf(n.running)
    ensures var m := Run(env, n, turns);
            m.files == n.files && m.running == n.running
    decreases |turns|
  {
    hide Verified, AlreadyInstalled;
    if turns != [] {
      UpToDateNodesStay(env, Passed(env, n, turns[0]), turns[1..]);
    }
  }
}
