/**
 The config on disk, in memory, behind the listener and in the worker, and the
 two operations that change it: `apply_config` and `persist_config_version`.
 Every bind and every step of a write may fail.
 */
module ConfigStore {
  import opened Results
  import opened NodeConfig
  import opened ConfigText

  /** How far an atomic write gets: create, write, flush and rename must all succeed. */
  const WRITE_STEPS: nat := 4

  class FileSystem {
    var files: map<string, string>

    constructor (path: string, contents: string)
      ensures files == map[path := contents]
    {
      files := map[path := contents];
    }

    /**
     Write a sibling, flush it, rename it over `path`. The write stops before
     step number `stop`, by an error or by a crash, with `torn` characters of a
     half-done write on disk. `path` then still holds what it held.
     */
    method WriteAtomic(path: string, contents: string, stop: nat, torn: nat) returns (ok: bool)
      modifies this
      ensures ok <==> stop >= WRITE_STEPS
      ensures ok ==> path in files && files[path] == contents && path + ".tmp" !in files
      ensures !ok ==> (path in files <==> path in old(files)) && (path in files ==> files[path] == old(files)[path])
      ensures forall p | p != path && p != path + ".tmp" ::
                (p in files <==> p in old(files)) && (p in files ==> files[p] == old(files)[p])
    {
      var tmp := path + ".tmp";
      assert |tmp| > |path|;
      if stop == 0 { return false; }
      files := files[tmp := ""];
      if stop == 1 {
        files := files[tmp := contents[..if torn < |contents| then torn else |contents|]];
        return false;
      }
      files := files[tmp := contents];
      if stop == 2 { return false; }
      if stop == 3 { return false; }
      files := files[path := files[tmp]] - {tmp};
      return true;
    }
  }

  /** What the outside world does to one operation. */
  datatype Fate = Fate(bindOk: bool, stop: nat, torn: nat) {
    predicate Written() {
      stop >= WRITE_STEPS
    }
  }

  datatype ApplyError = Invalid(error: Error) | Internal

  /** The text on disk, the active config, the served address, the worker's config. */
  datatype State = State(disk: string, config: Config, serving: string, worker: Config)

  datatype Outcome<R> = Outcome(state: State, result: R)

  // ---------------- the operations on values ----------------------------

  function Applied(s: State, body: ConfigUpdate, version: Option<u64>, fate: Fate)
    : Outcome<Result<Config, ApplyError>>
  {
    var yaml := Rendered(body, s.config, version);
    var read := FromYaml(yaml);
    if read.Failure? then Outcome(s, Failure(Invalid(read.error)))
    else
      var rebind := read.value.http.bind != s.config.http.bind;
      if (rebind && !fate.bindOk) || !fate.Written() then Outcome(s, Failure(Internal))
      else
        Outcome(State(yaml, read.value, if rebind then read.value.http.bind else s.serving, read.value),
                Success(read.value))
  }

  function Persisted(s: State, version: u64, fate: Fate): Outcome<bool> {
    if s.config.microwaveprop.None? then Outcome(s, false)
    else if AppliedVersion(s.config) == version then Outcome(s, true)
    else
      var config := WithVersion(s.config, version);
      var yaml := Rendered(ToUpdate(config), config, Some(version));
      Outcome(State(if fate.Written() then yaml else s.disk, config, s.serving, s.worker), fate.Written())
  }

  // ---------------- the store --------------------------------------------

  class Store {
    const path: string
    const fs: FileSystem
    var config: Config
    var serving: string
    var worker: Config
    /** Bumped once per successful local edit; the sync task watches it. */
    var edits: nat

    ghost predicate Valid()
      reads this, fs
    {
      path in fs.files
    }

    ghost function View(): State
      requires Valid()
      reads this, fs
    {
      State(fs.files[path], config, serving, worker)
    }

    constructor (path: string, fs: FileSystem, config: Config)
      requires path in fs.files
      ensures this.path == path && this.fs == fs && Valid()
      ensures View() == State(fs.files[path], config, config.http.bind, config) && edits == 0
    {
      this.path := path;
      this.fs := fs;
      this.config := config;
      serving := config.http.bind;
      worker := config;
      edits := 0;
    }

    method ApplyConfig(body: ConfigUpdate, version: Option<u64>, fate: Fate)
      returns (r: Result<Config, ApplyError>)
      requires Valid()
      modifies this`config, this`serving, this`worker, fs
      ensures Valid()
      ensures View() == Applied(old(View()), body, version, fate).state
      ensures r == Applied(old(View()), body, version, fate).result
    {
      hide FromYaml, Rendered;
      var current := config;
      var yaml := BuildYamlFromUpdate(body, current, version);
      var read := FromYaml(yaml);
      if read.Failure? {
        return Failure(Invalid(read.error));
      }
      var newCfg := read.value;
      var rebind := newCfg.http.bind != current.http.bind;
      if rebind && !fate.bindOk {
        return Failure(Internal);
      }
      var written := fs.WriteAtomic(path, yaml, fate.stop, fate.torn);
      if !written {
        return Failure(Internal);
      }
      if rebind {
        serving := newCfg.http.bind;
      }
      config := newCfg;
      worker := newCfg;
      return Success(newCfg);
    }

    method PersistConfigVersion(version: u64, fate: Fate) returns (ok: bool)
      requires Valid()
      modifies this`config, fs
      ensures Valid()
      ensures View() == Persisted(old(View()), version, fate).state
      ensures ok == Persisted(old(View()), version, fate).result
    {
      hide FromYaml, Rendered, ToUpdate;
      if config.microwaveprop.None? {
        return false;
      }
      if config.microwaveprop.value.configVersion == version {
        return true;
      }
      config := config.(microwaveprop := Some(config.microwaveprop.value.(configVersion := version)));
      var yaml := BuildYamlFromUpdate(ToUpdate(config), config, Some(version));
      ok := fs.WriteAtomic(path, yaml, fate.stop, fate.torn);
    }

    /** `PUT /api/config`: an edit is announced exactly when it was applied. */
    method PutConfig(body: ConfigUpdate, fate: Fate) returns (r: Result<ConfigView, ApplyError>)
      requires Valid()
      modifies this, fs
      ensures Valid()
      ensures View() == Applied(old(View()), body, None, fate).state
      ensures r.Success? <==> Applied(old(View()), body, None, fate).result.Success?
      ensures r.Success? ==> r.value == ToView(config)
      ensures edits == old(edits) + if r.Success? then 1 else 0
    {
      hide Applied, ToView;
      var applied := ApplyConfig(body, None, fate);
      if applied.Failure? {
        return Failure(applied.error);
      }
      edits := edits + 1;
      AppliedIsActive(old(View()), body, None, fate);
      return Success(ToView(applied.value));
    }
  }

  lemma AppliedIsActive(s: State, body: ConfigUpdate, version: Option<u64>, fate: Fate)
    ensures var o := Applied(s, body, version, fate);
            if o.result.Success? then o.state.config == o.result.value else o.state == s
  {
    hide FromYaml, Rendered;
  }

  // ---------------- what holds between them ------------------------------

  predicate SameButVersion(a: Config, b: Config) {
    WithVersion(a, 0) == WithVersion(b, 0)
  }

  /** Disk, memory, listener and worker agree, except for `config_version`. */
  predicate Consistent(s: State) {
    && Acceptable(s.config)
    && s.serving == s.config.http.bind
    && SameButVersion(s.worker, s.config)
    && FromYaml(s.disk).Success? && SameButVersion(FromYaml(s.disk).value, s.config)
  }

  /** The disk holds exactly the active config. */
  predicate Saved(s: State) {
    FromYaml(s.disk) == Success(s.config)
  }

  /** What a process starts from that has loaded `text` and serves what it says. */
  function Opened(text: string, c: Config): State {
    State(text, c, c.http.bind, c)
  }

  /** Any text that loads is a start: everything agrees, to the version. */
  lemma OpenedIsConsistent(text: string)
    requires FromYaml(text).Success?
    ensures Consistent(Opened(text, FromYaml(text).value)) && Saved(Opened(text, FromYaml(text).value))
  {
    hide FromYaml, Acceptable;
    ReadIsAcceptable(text);
  }

  datatype Operation =
    | Apply(body: ConfigUpdate, version: Option<u64>, fate: Fate)
    | Persist(toVersion: u64, fate: Fate)

  function Step(s: State, op: Operation): State {
    match op
    case Apply(body, version, fate) => Applied(s, body, version, fate).state
    case Persist(v, fate) => Persisted(s, v, fate).state
  }

  function Run(s: State, ops: seq<Operation>): State
    decreases |ops|
  {
    if ops == [] then s else Run(Step(s, ops[0]), ops[1..])
  }

  /** Whether the operation gets to write its document. */
  predicate Writes(s: State, op: Operation) {
    match op
    case Apply(body, version, fate) => Applied(s, body, version, fate).result.Success?
    case Persist(v, fate) =>
      s.config.microwaveprop.Some? && AppliedVersion(s.config) != v && fate.Written()
  }

  lemma VersionTwice(c: Config, v: u64, w: u64)
    ensures WithVersion(WithVersion(c, v), w) == WithVersion(c, w)
    ensures SameButVersion(WithVersion(c, v), c)
  {
  }

  lemma PersistReads(s: State, version: u64)
    requires Acceptable(s.config)
    ensures var c := WithVersion(s.config, version);
            Acceptable(c) && FromYaml(Rendered(ToUpdate(c), c, Some(version))) == Success(c)
  {
    hide Rendered, FromYaml, ToUpdate, FitsLines, BrokenRule;
    var c := WithVersion(s.config, version);
    VersionKeepsRules(s.config, version);
    RenderedConfigReads(c, Some(version), ToUpdate(c));
    VersionTwice(s.config, version, version);
  }

  /** One operation, however it ends, keeps everything consistent; one that wrote leaves it saved. */
  lemma StepKeepsConsistent(s: State, op: Operation)
    requires Consistent(s)
    ensures Consistent(Step(s, op))
    ensures Writes(s, op) ==> Saved(Step(s, op))
    ensures !Writes(s, op) ==> Step(s, op).disk == s.disk
  {
    hide Rendered, FromYaml, ToUpdate, Acceptable;
    match op
    case Apply(body, version, fate) =>
      var yaml := Rendered(body, s.config, version);
      if FromYaml(yaml).Success? {
        ReadIsAcceptable(yaml);
      }
    case Persist(v, fate) =>
      PersistReads(s, v);
      VersionTwice(s.config, v, 0);
  }

  /** Over every sequence of operations and failures, the four stay consistent. */
  lemma {:induction false} RunKeepsConsistent(s: State, ops: seq<Operation>)
    requires Consistent(s)
    ensures Consistent(Run(s, ops))
    decreases |ops|
  {
    hide Step, Consistent;
    if ops != [] {
      StepKeepsConsistent(s, ops[0]);
      RunKeepsConsistent(Step(s, ops[0]), ops[1..]);
    }
  }

  function Survived(op: Operation, fate: Fate): Operation {
    op.(fate := fate)
  }

  /**
   Wherever an operation is cut off, what is on disk parses: to what it parsed
   to before, or to the config the finished operation would have made active.
   */
  lemma CrashLeavesOldOrNew(s: State, op: Operation, cut: Fate)
    requires Consistent(s)
    ensures var d, done := Step(s, Survived(op, cut)).disk, Step(s, Survived(op, Fate(true, WRITE_STEPS, 0)));
            FromYaml(d).Success? && (d == s.disk || FromYaml(d) == Success(done.config))
  {
    hide Rendered, FromYaml, ToUpdate, Acceptable;
    StepKeepsConsistent(s, Survived(op, cut));
    StepKeepsConsistent(s, Survived(op, Fate(true, WRITE_STEPS, 0)));
  }

  /**
   Recording a version changes memory before it writes, so its own answer does
   not say whether the disk agrees afterwards. It does exactly when there is no
   version to record, or this call wrote, or the disk already held `version`.
   */
  lemma PersistSavedExactly(s: State, version: u64, fate: Fate)
    requires Consistent(s)
    ensures var s' := Step(s, Persist(version, fate));
            Saved(s') <==>
            || s.config.microwaveprop.None?
            || Writes(s, Persist(version, fate))
            || AppliedVersion(FromYaml(s.disk).value) == version
  {
    hide Rendered, FromYaml, ToUpdate, Acceptable;
    StepKeepsConsistent(s, Persist(version, fate));
    var s' := Step(s, Persist(version, fate));
    var d := FromYaml(s.disk).value;
    VersionTwice(s'.config, AppliedVersion(d), 0);
    assert SameButVersion(d, s'.config) && AppliedVersion(d) == AppliedVersion(s'.config) ==> d == s'.config;
  }

  /** A failed record followed by a repeat of it: the repeat reports success and writes nothing. */
  lemma RepeatedPersistIsNoProof(s: State, version: u64, failed: Fate, again: Fate)
    requires Consistent(s) && Saved(s) && s.config.microwaveprop.Some?
    requires AppliedVersion(s.config) != version && !failed.Written()
    ensures var s' := Persisted(s, version, failed).state;
            && !Persisted(s, version, failed).result
            && Persisted(s', version, again).result && Persisted(s', version, again).state == s'
            && !Saved(s') && FromYaml(s'.disk) == Success(s.config)
  {
    hide Rendered, FromYaml, ToUpdate, Acceptable;
  }
}
