/**
 Self-update: a check of the release channel, and the install that puts a
 published build at the path the daemon was started from. Every step that
 touches the network, the disk or another process may fail.

 A binary is its bytes. What depends on the bytes alone, its digest, how it
 answers the probes and the commit it was built from, is given by `Env`.
 */
module Update {
  import opened Arithmetic
  import opened Results
  import opened NodeConfig
  import opened Text

  type Bytes = seq<int>

  const FIRST_RETRY: nat := 30

  datatype Manifest = Manifest(commit: string, assets: map<string, string>)

  datatype Probe = NotStarted | Hung | Exited(ok: bool, stderr: string)

  datatype Env = Env(
    sha256: Bytes -> string,
    checkConfig: Bytes -> Probe,
    legacyProbe: Bytes -> Probe,
    commitOf: Bytes -> string,
    distBuild: bool,
    canSelfUpdate: bool,
    asset: Option<string>,
    hasDirectory: bool
  )

  datatype Phase = Idle | Checking | Downloading | Installing

  /** The install path, its `.prev` sibling, and the staging file. */
  datatype Files = Files(path: Option<Bytes>, prev: Option<Bytes>, tmp: Option<Bytes>)

  datatype Node = Node(
    files: Files,
    running: Bytes,
    latest: Option<Manifest>,
    phase: Phase,
    lastError: bool,
    lastCheckAt: Option<string>,
    wait: nat,
    retry: Option<nat>
  )

  // ---------------- digests and probes ----------------------------------

  /** `eq_ignore_ascii_case`. */
  predicate SameDigest(a: string, b: string) {
    LowerCase(a) == LowerCase(b)
  }

  predicate Contains(s: string, sub: string) {
    (|sub| <= |s| && s[..|sub|] == sub) || (s != "" && Contains(s[1..], sub))
  }

  const UNKNOWN_FLAG := "failed to load config from --check-config"
  const LOAD_FAILED := "failed to load config from"

  /** `preflight`: the candidate accepts the live config, or is too old to be asked and starts. */
  predicate Preflighted(env: Env, candidate: Bytes) {
    match env.checkConfig(candidate)
    case Exited(ok, stderr) => ok || (Contains(stderr, UNKNOWN_FLAG) && LegacyPreflighted(env, candidate))
    case _ => false
  }

  predicate LegacyPreflighted(env: Env, candidate: Bytes) {
    match env.legacyProbe(candidate)
    case Exited(ok, stderr) => !ok && Contains(stderr, LOAD_FAILED)
    case _ => false
  }

  /** What may be put at the install path for a manifest entry. */
  predicate Trusted(env: Env, expected: string, candidate: Bytes) {
    SameDigest(expected, env.sha256(candidate)) && Preflighted(env, candidate)
  }

  // ---------------- what can go wrong -----------------------------------

  datatype Download = NoAnswer | HttpError | Stream(chunks: seq<Bytes>, cut: bool)

  datatype Fate = Fate(
    readable: bool,      // the file at the install path can be hashed
    download: Download,
    createOk: bool,
    writable: nat,       // chunks that can be written
    torn: nat,           // how much of the next one lands
    syncOk: bool,
    chmodOk: bool,
    backupOk: bool,
    renameOk: bool,
    rollbackOk: bool,
    cleanupOk: bool,
    execOk: bool
  )

  function Joined(chunks: seq<Bytes>): Bytes {
    if chunks == [] then [] else Joined(chunks[..|chunks| - 1]) + chunks[|chunks| - 1]
  }

  // ---------------- the operations on values ----------------------------

  /** `swap`: the files it leaves, and whether it succeeded. */
  function Swapped(f: Files, fate: Fate): (Files, bool) {
    if f.path.Some? && !fate.backupOk then (f, false)
    else
      var aside := if f.path.Some? then Files(None, f.path, f.tmp) else f;
      if f.tmp.Some? && fate.renameOk then (Files(f.tmp, aside.prev, None), true)
      else if f.path.Some? && fate.rollbackOk then (Files(f.path, None, f.tmp), false)
      else (aside, false)
  }

  /** The bytes in the staging file when the download loop stops, and whether that was the end of it. */
  function Landed(chunks: seq<Bytes>, fate: Fate): Bytes {
    if |chunks| <= fate.writable then Joined(chunks)
    else
      var cut := chunks[fate.writable];
      Joined(chunks[..fate.writable]) + cut[..if fate.torn < |cut| then fate.torn else |cut|]
  }

  predicate Arrives(fate: Fate) {
    fate.download.Stream? && fate.createOk && |fate.download.chunks| <= fate.writable
    && !fate.download.cut && fate.syncOk
  }

  /** `download_and_verify`: the files it leaves, and whether it succeeded. */
  function Verified(env: Env, f: Files, expected: string, fate: Fate): (Files, bool) {
    if !fate.download.Stream? || !fate.createOk then (f, false)
    else
      var landed := Landed(fate.download.chunks, fate);
      var staged := f.(tmp := Some(landed));
      if Arrives(fate) && fate.chmodOk && Trusted(env, expected, landed) then Swapped(staged, fate)
      else (staged, false)
  }

  function Cleaned(f: Files, fate: Fate): Files {
    if fate.cleanupOk then f.(tmp := None) else f
  }

  function Failed(n: Node): Node {
    n.(phase := Idle, lastError := true)
  }

  /** `activate`: a process that has been replaced starts over, and has not looked at the channel yet. */
  function Activated(n: Node, fate: Fate): Node {
    if n.files.path.Some? && fate.execOk then Node(n.files, n.files.path.value, None, Idle, false, None, 0, None)
    else Failed(n)
  }

  /** What an install wants at the path, if it can start at all. */
  function Wanted(env: Env, n: Node): Option<string> {
    if n.latest.None? || !env.canSelfUpdate || env.asset.None? || !env.hasDirectory then None
    else if env.asset.value !in n.latest.value.assets then None
    else Some(n.latest.value.assets[env.asset.value])
  }

  predicate AlreadyInstalled(env: Env, f: Files, expected: string, fate: Fate) {
    f.path.Some? && fate.readable && SameDigest(env.sha256(f.path.value), expected)
  }

  /** `install`. */
  function Installed(env: Env, n: Node, fate: Fate): Node {
    match Wanted(env, n)
    case None => Failed(n)
    case Some(expected) =>
      if AlreadyInstalled(env, n.files, expected, fate) then Activated(n.(phase := Installing), fate)
      else
        var (files, ok) := Verified(env, n.files, expected, fate);
        if ok then Activated(n.(files := files, phase := Installing), fate)
        else Failed(n.(files := Cleaned(files, fate)))
  }

  datatype Channel = Unreachable | HttpStatus | Unreadable | Offered(manifest: Manifest)

  datatype Checked = CheckFailed | UpToDate | Available

  function CheckOutcome(env: Env, running: Bytes, answer: Channel): Checked {
    if !answer.Offered? then CheckFailed
    else if answer.manifest.commit == env.commitOf(running) then UpToDate
    else Available
  }

  /** `check`. */
  function AfterCheck(env: Env, n: Node, answer: Channel, now: string): Node {
    match CheckOutcome(env, n.running, answer)
    case CheckFailed => Failed(n)
    case UpToDate => n.(latest := None, phase := Idle, lastError := false, lastCheckAt := Some(now))
    case Available => n.(latest := Some(answer.manifest), phase := Idle, lastError := false, lastCheckAt := Some(now))
  }

  function RetryDelay(previous: Option<nat>, interval: nat): nat {
    Min(if previous.None? then FIRST_RETRY else previous.value * 2, interval)
  }

  datatype Request = Timer | Check | Install

  datatype Turn = Turn(request: Request, config: UpdateConfig, answer: Channel, now: string, fate: Fate)

  function Interval(config: UpdateConfig): nat {
    if config.checkInterval < MIN_CHECK_INTERVAL then MIN_CHECK_INTERVAL else config.checkInterval
  }

  predicate InstallsNow(env: Env, t: Turn, outcome: Checked) {
    t.request == Install || (outcome == Available && t.config.auto && env.distBuild && env.canSelfUpdate)
  }

  /** One pass of `run`, from the wake-up on. */
  function Passed(env: Env, n: Node, t: Turn): Node {
    var interval := Interval(t.config);
    var woken := n.(wait := interval);
    if !t.config.enabled && t.request == Timer then woken
    else
      var outcome := CheckOutcome(env, n.running, t.answer);
      var checked := AfterCheck(env, woken, t.answer, t.now);
      if outcome == CheckFailed then
        var delay := RetryDelay(n.retry, interval);
        checked.(retry := Some(delay), wait := delay)
      else if InstallsNow(env, t, outcome) then Installed(env, checked.(retry := None), t.fate)
      else checked.(retry := None)
  }

  function Run(env: Env, n: Node, turns: seq<Turn>): Node
    decreases |turns|
  {
    if turns == [] then n else Run(env, Passed(env, n, turns[0]), turns[1..])
  }

  // ---------------- the loop, step by step ------------------------------

  class Updater {
    var path: Option<Bytes>
    var prev: Option<Bytes>
    var tmp: Option<Bytes>
    var running: Bytes
    var latest: Option<Manifest>
    var phase: Phase
    var lastError: bool
    var lastCheckAt: Option<string>
    var wait: nat
    var retry: Option<nat>

    ghost function Disk(): Files
      reads this
    {
      Files(path, prev, tmp)
    }

    ghost function View(): Node
      reads this
    {
      Node(Disk(), running, latest, phase, lastError, lastCheckAt, wait, retry)
    }

    constructor (path: Option<Bytes>, prev: Option<Bytes>, tmp: Option<Bytes>, running: Bytes)
      ensures View() == Node(Files(path, prev, tmp), running, None, Idle, false, None, 0, None)
    {
      this.path, this.prev, this.tmp, this.running := path, prev, tmp, running;
      latest, phase, lastError, lastCheckAt, wait, retry := None, Idle, false, None, 0, None;
    }

    method Fail()
      modifies this`phase, this`lastError
      ensures View() == Failed(old(View()))
    {
      phase, lastError := Idle, true;
    }

    method Swap(fate: Fate) returns (ok: bool)
      modifies this`path, this`prev, this`tmp
      ensures (Disk(), ok) == Swapped(old(Disk()), fate)
    {
      var backedUp := false;
      if path.Some? {
        if !fate.backupOk { return false; }
        prev, path := path, None;
        backedUp := true;
      }
      if tmp.None? || !fate.renameOk {
        if backedUp && fate.rollbackOk {
          path, prev := prev, None;
        }
        return false;
      }
      path, tmp := tmp, None;
      return true;
    }

    /** Writes the chunks into the staging file and hashes what it writes. */
    method Receive(chunks: seq<Bytes>, fate: Fate) returns (ok: bool, hashed: Bytes)
      modifies this`tmp
      ensures tmp == Some(Landed(chunks, fate))
      ensures ok <==> |chunks| <= fate.writable
      ensures ok ==> Some(hashed) == tmp
    {
      tmp, hashed := Some([]), [];
      for i := 0 to |chunks|
        invariant i <= fate.writable
        invariant hashed == Joined(chunks[..i]) && tmp == Some(hashed)
      {
        if i == fate.writable {
          var cut := chunks[i];
          tmp := Some(tmp.value + cut[..if fate.torn < |cut| then fate.torn else |cut|]);
          return false, hashed;
        }
        tmp := Some(tmp.value + chunks[i]);
        hashed := hashed + chunks[i];
        assert chunks[..i + 1][..i] == chunks[..i];
      }
      assert chunks[..|chunks|] == chunks;
      ok := true;
    }

    method DownloadAndVerify(env: Env, expected: string, fate: Fate) returns (ok: bool)
      modifies this`path, this`prev, this`tmp
      ensures (Disk(), ok) == Verified(env, old(Disk()), expected, fate)
    {
      hide Preflighted, SameDigest, Swapped, Landed;
      if !fate.download.Stream? || !fate.createOk { return false; }
      var received, hashed := Receive(fate.download.chunks, fate);
      if !received || fate.download.cut || !fate.syncOk { return false; }
      if !SameDigest(expected, env.sha256(hashed)) { return false; }
      if !fate.chmodOk { return false; }
      if !Preflighted(env, tmp.value) { return false; }
      ok := Swap(fate);
    }

    method Activate(fate: Fate)
      modifies this
      ensures View() == Activated(old(View()), fate)
    {
      if path.Some? && fate.execOk {
        running := path.value;
        latest, phase, lastError, lastCheckAt, wait, retry := None, Idle, false, None, 0, None;
      } else {
        Fail();
      }
    }

    method RunInstall(env: Env, fate: Fate)
      modifies this
      ensures View() == Installed(env, old(View()), fate)
    {
      hide Verified, SameDigest;
      if latest.None? || !env.canSelfUpdate || env.asset.None? || !env.hasDirectory
         || env.asset.value !in latest.value.assets
      {
        Fail();
        return;
      }
      var expected := latest.value.assets[env.asset.value];
      if path.Some? && fate.readable && SameDigest(env.sha256(path.value), expected) {
        phase := Installing;
        Activate(fate);
        return;
      }
      phase := Downloading;
      var ok := DownloadAndVerify(env, expected, fate);
      if ok {
        phase := Installing;
        Activate(fate);
      } else {
        if fate.cleanupOk {
          tmp := None;
        }
        Fail();
      }
    }

    method RunCheck(env: Env, answer: Channel, now: string) returns (outcome: Checked)
      modifies this`latest, this`phase, this`lastError, this`lastCheckAt
      ensures View() == AfterCheck(env, old(View()), answer, now)
      ensures outcome == CheckOutcome(env, running, answer)
    {
      phase, lastError := Checking, false;
      if !answer.Offered? {
        Fail();
        return CheckFailed;
      }
      var available := answer.manifest.commit != env.commitOf(running);
      latest := if available then Some(answer.manifest) else None;
      phase := Idle;
      lastCheckAt := Some(now);
      return if available then Available else UpToDate;
    }

    method Pass(env: Env, t: Turn)
      modifies this
      ensures View() == Passed(env, old(View()), t)
    {
      hide Installed;
      var interval := Interval(t.config);
      wait := interval;
      if !t.config.enabled && t.request == Timer { return; }
      var outcome := RunCheck(env, t.answer, t.now);
      if outcome == CheckFailed {
        var delay := RetryDelay(retry, wait);
        retry := Some(delay);
        wait := delay;
      } else {
        retry := None;
        if t.request == Install || (outcome == Available && t.config.auto && env.distBuild && env.canSelfUpdate) {
          RunInstall(env, t.fate);
        }
      }
    }
  }
}
