/**
 The config shape the website syncs, what a pushed one does to the node, and
 the laws that relate the two.
 */
module SyncConfigs {
  import opened Results
  import opened Numbers
  import opened NodeConfig
  import opened BareMode
  import opened ConfigText
  import opened ConfigStore
  import opened YamlRoundTrip
  import Text

  /** No token, no `http` block, no update channel: those stay on the node. */
  datatype SyncConfig = SyncConfig(
    frequency: F64,
    mode: string,
    driver: string,
    sampleRate: F64,
    gain: Option<F64>,
    ppm: F64,
    periodSeconds: u32,
    beacon: Option<BeaconConfig>,
    uploadEnabled: bool,
    beaconId: string,
    gridsquare: string
  )

  function FromConfig(c: Config): SyncConfig {
    var mw := c.microwaveprop;
    SyncConfig(c.frequency, ModeName(c.mode), c.driver, c.sampleRate, c.gain, c.ppm, c.periodSeconds,
               c.beacon, mw.Some? && mw.value.enabled,
               if mw.Some? then mw.value.beaconId else "",
               if mw.Some? then mw.value.gridsquare else "")
  }

  function ToConfigUpdate(p: SyncConfig, current: Config): ConfigUpdate {
    ConfigUpdate(p.frequency, p.mode, p.driver, p.sampleRate, p.gain, Some(p.ppm),
                 Some(p.periodSeconds), p.beacon, Some(HttpConfig(current.http.bind)),
                 Some(MicrowavepropUpdate(p.uploadEnabled, REDACTED, p.beaconId, p.gridsquare)), None)
  }

  predicate Comparable(p: SyncConfig) {
    && !p.frequency.NaN? && !p.sampleRate.NaN? && !p.ppm.NaN? && (p.gain.Some? ==> !p.gain.value.NaN?)
    && (p.beacon.Some? ==> !p.beacon.value.offsetHz.NaN? && !p.beacon.value.bandwidthHz.NaN?)
  }

  /** `==` on the wire type: field by field, and a NaN equals nothing. */
  predicate SameContent(a: SyncConfig, b: SyncConfig) {
    a == b && Comparable(a)
  }

  datatype PushDecision = Stale | VersionOnly | ApplyIt

  function DecidePush(pushed: u64, applied: u64, config: SyncConfig, active: SyncConfig): PushDecision {
    if pushed <= applied then Stale
    else if SameContent(config, active) then VersionOnly
    else ApplyIt
  }

  datatype PushFrame = Push(version: u64, config: SyncConfig)

  /** `apply_push`: the state it leaves, and whether it ended without an error. */
  function Pushed(s: State, p: PushFrame, fate: Fate): Outcome<bool> {
    match DecidePush(p.version, AppliedVersion(s.config), p.config, FromConfig(s.config))
    case Stale => Outcome(s, true)
    case VersionOnly => Persisted(s, p.version, fate)
    case ApplyIt =>
      var o := Applied(s, ToConfigUpdate(p.config, s.config), Some(p.version), fate);
      Outcome(o.state, o.result.Success?)
  }

  /** `apply_push` over the store; the answer is what goes into `config_applied`. */
  method ApplyPush(store: Store, p: PushFrame, fate: Fate) returns (decision: PushDecision, ok: bool)
    requires store.Valid()
    modifies store`config, store`serving, store`worker, store.fs
    ensures store.Valid()
    ensures store.View() == Pushed(old(store.View()), p, fate).state
    ensures ok == Pushed(old(store.View()), p, fate).result
    ensures decision == DecidePush(p.version, AppliedVersion(old(store.config)), p.config,
                                   FromConfig(old(store.config)))
  {
    hide Applied, Persisted, ToConfigUpdate, FromConfig;
    var current := store.config;
    decision := DecidePush(p.version, AppliedVersion(current), p.config, FromConfig(current));
    match decision
    case Stale => ok := true;
    case VersionOnly => ok := store.PersistConfigVersion(p.version, fate);
    case ApplyIt =>
      var r := store.ApplyConfig(ToConfigUpdate(p.config, current), Some(p.version), fate);
      ok := r.Success?;
  }

  // ---------------- laws of one push ------------------------------------

  /** What the node would run after applying `p` to `c`, if the rules allow it. */
  function Landed(c: Config, p: SyncConfig, version: u64): Result<Config, Error> {
    Resolved(ToConfigUpdate(p, c), c, Some(version))
  }

  predicate PushFitsLines(p: SyncConfig) {
    Text.NoNewline(p.driver) && Text.NoNewline(p.beaconId) && Text.NoNewline(p.gridsquare)
  }

  /** A push an accepted config can take: a known mode, whole lines, and rules kept. */
  predicate Legal(p: SyncConfig) {
    && ParseMode(p.mode).Success? && PushFitsLines(p)
    && BrokenRule(Template(p)).None?
  }

  /** The config a push makes of an otherwise unremarkable node. */
  function Template(p: SyncConfig): Config {
    Config(p.frequency, if ParseMode(p.mode).Success? then ParseMode(p.mode).value else Usb,
           p.sampleRate, p.gain, p.driver, p.ppm, p.periodSeconds, p.beacon, HttpConfig(""),
           Some(MicrowavepropConfig(p.uploadEnabled, "", p.beaconId, p.gridsquare, 0)),
           UpdateConfig(true, true, DEFAULT_CHECK_INTERVAL))
  }

  /** What reading back the rendered push gives, for a push with a clean mode word. */
  lemma PushReads(c: Config, p: SyncConfig, version: u64)
    requires Acceptable(c) && CleanScalar(p.mode)
    ensures var r := FromYaml(Rendered(ToConfigUpdate(p, c), c, Some(version)));
            if PushFitsLines(p) then r == Landed(c, p, version) else r.Failure?
  {
    hide Text.NoNewline, CleanScalar, BrokenRule, FromYaml, Rendered, Resolved;
    assert BodyFitsLines(ToConfigUpdate(p, c), c) <==> PushFitsLines(p) by {
      if c.microwaveprop.None? {
        DefaultsFit();
      }
    }
    hide BodyFitsLines, ToConfigUpdate, PushFitsLines;
    RenderedUpdateReads(ToConfigUpdate(p, c), c, Some(version));
  }

  /** The whole node after a legal push: the pushed content, and everything local kept. */
  function Overwritten(c: Config, p: SyncConfig, version: u64): Config {
    Template(p).(http := c.http, update := c.update,
                 microwaveprop := Some(MicrowavepropConfig(p.uploadEnabled, PreservedToken(c), p.beaconId,
                                                           p.gridsquare, version)))
  }

  lemma LandedExactly(c: Config, p: SyncConfig, version: u64)
    requires Acceptable(c)
    ensures ParseMode(p.mode).Success? ==>
              Landed(c, p, version) == Validated(Overwritten(c, p, version))
              && (BrokenRule(Overwritten(c, p, version)).None? <==> BrokenRule(Template(p)).None?)
    ensures ParseMode(p.mode).Failure? ==> Landed(c, p, version).Failure?
  {
    hide ParseMode, Value, GridsquareFits, BrokenBeaconRule, FitsLines;
    if ParseMode(p.mode).Success? {
      assert Meant(ToConfigUpdate(p, c), c, Some(version), ParseMode(p.mode).value) ==
             Overwritten(c, p, version);
    }
  }

  /** What comes of rendering a push over a config and reading it back. */
  function Reading(c: Config, p: SyncConfig, version: u64): Result<Config, Error> {
    FromYaml(Rendered(ToConfigUpdate(p, c), c, Some(version)))
  }

  lemma CleanPushLands(c: Config, p: SyncConfig, version: u64)
    requires Acceptable(c) && CleanScalar(p.mode)
    ensures var r := Reading(c, p, version);
            (r.Success? <==> Legal(p)) && (r.Success? ==> r.value == Overwritten(c, p, version))
  {
    hide FromYaml, Rendered, BrokenRule, ParseMode, CleanScalar, PushFitsLines, Acceptable, ToConfigUpdate;
    PushReads(c, p, version);
    LandedExactly(c, p, version);
  }

  /** What a push is taken as: the content a node runs after it, if it takes it at all. */
  function Taken(p: SyncConfig): Option<SyncConfig> {
    var r := Reading(SAMPLE, p, 0);
    if r.Success? then Some(FromConfig(r.value)) else None
  }

  lemma PushFits(c: Config, p: SyncConfig)
    requires Acceptable(c)
    ensures BodyFitsLines(ToConfigUpdate(p, c), c) <==> PushFitsLines(p)
  {
    hide Text.NoNewline, BrokenRule;
    if c.microwaveprop.None? {
      DefaultsFit();
    }
  }

  /** Everything a push says goes into its own content, and everything it does not say stays. */
  lemma PushAsMeant(c: Config, p: SyncConfig, version: u64)
    requires Reading(c, p, version).Success?
    ensures var r := Reading(c, p, version).value; r == Overwritten(c, FromConfig(r), version)
  {
    hide FromYaml, Rendered, BodyFitsLines;
    AnyModeReads(ToConfigUpdate(p, c), c, Some(version));
    var r := Reading(c, p, version).value;
    ModeNames(ModeName(r.mode), r.mode);
    hide ParseMode, ModeName;
  }

  lemma TakenOnce(c: Config, p: SyncConfig, version: u64, d: Config, other: u64)
    requires Acceptable(d) && Reading(c, p, version).Success? && Acceptable(c)
    ensures Reading(d, p, other).Success?
    ensures FromConfig(Reading(d, p, other).value) == FromConfig(Reading(c, p, version).value)
  {
    hide FromYaml, Rendered, BodyFitsLines, PushFitsLines, ModeName, TokenOf, VersionOf;
    AnyModeReads(ToConfigUpdate(p, c), c, Some(version));
    PushFits(c, p);
    PushFits(d, p);
    AcceptedInterval(d);
    hide Acceptable;
    TakenEverywhere(ToConfigUpdate(p, c), c, Some(version), ToConfigUpdate(p, d), d, Some(other));
  }

  lemma AcceptedInterval(c: Config)
    requires Acceptable(c)
    ensures c.update.checkInterval >= MIN_CHECK_INTERVAL
  {
    hide Value, BrokenBeaconRule, GridsquareFits;
  }

  lemma SampleIsAcceptable()
    ensures Acceptable(SAMPLE)
  {
    hide FromYaml, Rendered, ToUpdate, Acceptable;
    SampleLoads();
    ReadIsAcceptable(Rendered(ToUpdate(SAMPLE), SAMPLE, None));
  }

  /**
   Put, then get, for every push and every accepted config: whether a push is
   taken, and as what, does not depend on the node. The node then runs that
   content at the pushed version, with its own token, address and update block.
   */
  lemma PushLands(c: Config, p: SyncConfig, version: u64)
    requires Acceptable(c)
    ensures var r := Reading(c, p, version);
            && (r.Success? <==> Taken(p).Some?)
            && (r.Success? ==>
                  && r.value == Overwritten(c, Taken(p).value, version) && Acceptable(r.value)
                  && FromConfig(r.value) == Taken(p).value && AppliedVersion(r.value) == version
                  && PreservedToken(r.value) == PreservedToken(c)
                  && r.value.http == c.http && r.value.update == c.update)
  {
    hide FromYaml, Rendered, Acceptable, FromConfig, ToConfigUpdate, Template;
    SampleIsAcceptable();
    if Taken(p).Some? {
      TakenOnce(SAMPLE, p, 0, c, version);
    }
    if Reading(c, p, version).Success? {
      TakenOnce(c, p, version, SAMPLE, 0);
      PushAsMeant(c, p, version);
      ReadIsAcceptable(Rendered(ToConfigUpdate(p, c), c, Some(version)));
    }
  }

  /** What a legal push is taken as is itself; no other push is taken as what it says. */
  lemma TakenExactly(p: SyncConfig)
    ensures Taken(p) == Some(p) <==> Legal(p)
    ensures Taken(p).Some? ==> Legal(Taken(p).value)
    ensures CleanScalar(p.mode) && Taken(p).Some? ==> Legal(p)
  {
    hide FromYaml, Rendered, Acceptable, CleanScalar, ToConfigUpdate, Template, BrokenRule, PushFitsLines;
    SampleIsAcceptable();
    if Legal(p) || CleanScalar(p.mode) {
      if Legal(p) { KnownModeIsClean(p.mode); }
      CleanPushLands(SAMPLE, p, 0);
      hide Overwritten;
      if Legal(p) { LegalContent(SAMPLE, p, 0); }
    }
    if Taken(p).Some? {
      var r := Reading(SAMPLE, p, 0).value;
      ReadIsAcceptable(Rendered(ToConfigUpdate(p, SAMPLE), SAMPLE, Some(0)));
      PushAsMeant(SAMPLE, p, 0);
      ReadContentIsLegal(r, 0);
    }
  }

  lemma ReadContentIsLegal(r: Config, version: u64)
    requires Acceptable(r) && r == Overwritten(SAMPLE, FromConfig(r), version)
    ensures Legal(FromConfig(r)) && ParseMode(FromConfig(r).mode).Success?
  {
    hide Acceptable, Legal;
    OwnContentOnlyRaisesVersion(r, version);
    ModeNames(ModeName(r.mode), r.mode);
  }

  /**
   A node takes a push and then runs exactly what was pushed if and only if the
   push is legal: a known mode, whole lines and no rule broken.
   */
  lemma PushLandsExactly(c: Config, p: SyncConfig, version: u64)
    requires Acceptable(c)
    ensures var r := Reading(c, p, version);
            r.Success? && FromConfig(r.value) == p <==> Legal(p)
  {
    hide Reading, Taken, Legal, FromConfig, Acceptable, Overwritten;
    PushLands(c, p, version);
    TakenExactly(p);
  }

  /**
   Not every push that is taken is legal: one with a comment behind its mode is
   taken as the push without it.
   */
  lemma CommentedPushIsTakenAmiss(p: SyncConfig, note: string)
    requires Legal(p) && IsNote(note)
    ensures var q := p.(mode := Commented(p.mode, note)); Taken(q) == Some(p) && q != p && !Legal(q)
  {
    hide FromYaml, Rendered, FromConfig, CleanScalar, Commented, ParseMode, IsNote, BrokenRule, PushFitsLines;
    KnownModeIsClean(p.mode);
    var q := p.(mode := Commented(p.mode, note));
    TakenExactly(p);
    TakenExactly(q);
    CommentedModeReads(ToConfigUpdate(p, SAMPLE), SAMPLE, Some(0), note);
    assert ToConfigUpdate(q, SAMPLE) == ToConfigUpdate(p, SAMPLE).(mode := q.mode);
    CommentIsLonger(p.mode, note);
  }

  lemma CommentIsLonger(word: string, note: string)
    ensures |Commented(word, note)| > |word|
  {
  }

  /** Put twice: the first push leaves no trace under the second. */
  lemma SecondPushWins(c: Config, p: SyncConfig, q: SyncConfig, v: u64, w: u64)
    ensures Overwritten(Overwritten(c, p, v), q, w) == Overwritten(c, q, w)
  {
  }

  /** Get, then put: a node's own content at a new version changes only the version. */
  lemma OwnContentOnlyRaisesVersion(c: Config, version: u64)
    requires Acceptable(c) && c.microwaveprop.Some?
    ensures Overwritten(c, FromConfig(c), version) == WithVersion(c, version)
    ensures Legal(FromConfig(c))
  {
    hide Value, GridsquareFits, BrokenBeaconRule, Text.NoNewline;
    ModeNames(ModeName(c.mode), c.mode);
    hide ParseMode, ModeName;
  }

  /** The same push through the node: applied, merely recorded, or stale, and never more than that. */
  lemma PushOwnContent(s: State, version: u64, fate: Fate)
    requires Consistent(s) && s.config.microwaveprop.Some? && fate.Written() && fate.bindOk
    ensures var s' := Pushed(s, Push(version, FromConfig(s.config)), fate).state;
            s'.config == if version <= AppliedVersion(s.config) then s.config
                         else WithVersion(s.config, version)
  {
    hide FromYaml, Rendered, FromConfig, Acceptable, ToConfigUpdate, Overwritten, WithVersion, ToUpdate;
    var c := s.config;
    OwnContentOnlyRaisesVersion(c, version);
    assert Acceptable(c);
    hide Taken, Legal;
    PushLands(c, FromConfig(c), version);
    TakenExactly(FromConfig(c));
  }

  // ---------------- the last writer wins --------------------------------

  predicate Reliable(fate: Fate) {
    fate.bindOk && fate.Written()
  }

  /** The active config after one push whose writes succeed. */
  function After(c: Config, p: PushFrame): Config {
    if p.version <= AppliedVersion(c) || Taken(p.config).None? then c
    else Overwritten(c, Taken(p.config).value, p.version)
  }

  lemma PushedIsAfter(s: State, p: PushFrame, fate: Fate)
    requires Consistent(s) && s.config.microwaveprop.Some? && Reliable(fate)
    ensures var s' := Pushed(s, p, fate).state;
            && s'.config == After(s.config, p) && Consistent(s') && s'.config.microwaveprop.Some?
            && (p.version <= AppliedVersion(s.config) || Taken(p.config).None? ==> s' == s)
  {
    hide FromYaml, Rendered, FromConfig, Acceptable, ToConfigUpdate, WithVersion, ToUpdate, Legal,
         PreservedToken, Template, Taken;
    var c := s.config;
    PushLands(c, p.config, p.version);
    if p.config == FromConfig(c) {
      OwnContentOnlyRaisesVersion(c, p.version);
      TakenExactly(p.config);
    }
    PushIsStep(s, p, fate);
  }

  lemma PushIsStep(s: State, p: PushFrame, fate: Fate)
    requires Consistent(s)
    ensures Consistent(Pushed(s, p, fate).state)
    ensures p.version <= AppliedVersion(s.config) ==> Pushed(s, p, fate).state == s
  {
    hide Applied, Persisted, Consistent;
    StepKeepsConsistent(s, Apply(ToConfigUpdate(p.config, s.config), Some(p.version), fate));
    StepKeepsConsistent(s, Persist(p.version, fate));
  }

  function PushedAll(s: State, ps: seq<PushFrame>, fate: Fate): State
    decreases |ps|
  {
    if ps == [] then s else PushedAll(Pushed(s, ps[0], fate).state, ps[1..], fate)
  }

  /** `v` is the highest version above `base` among the pushes a node takes, or `base` itself. */
  predicate Highest(ps: seq<PushFrame>, base: nat, v: nat) {
    && v >= base
    && (forall i | 0 <= i < |ps| :: Taken(ps[i].config).Some? ==> ps[i].version <= v)
    && (v > base ==> exists i | 0 <= i < |ps| :: Taken(ps[i].config).Some? && ps[i].version == v)
  }

  /** One content per version. */
  predicate Functional(ps: seq<PushFrame>) {
    forall i, j | 0 <= i < |ps| && 0 <= j < |ps| :: ps[i].version == ps[j].version ==> ps[i].config == ps[j].config
  }

  lemma OverwrittenVersion(c: Config, p: SyncConfig, version: u64)
    ensures AppliedVersion(Overwritten(c, p, version)) == version
  {
  }

  /** A run of pushes, with the one that wins: -1 when none moves the node. */
  lemma {:induction false} PushesLand(s: State, ps: seq<PushFrame>, fate: Fate) returns (winner: int)
    requires Consistent(s) && s.config.microwaveprop.Some? && Reliable(fate)
    ensures var s', base := PushedAll(s, ps, fate), AppliedVersion(s.config);
            && Consistent(s') && s'.config.microwaveprop.Some?
            && Highest(ps, base, AppliedVersion(s'.config))
            && -1 <= winner < |ps|
            && (winner == -1 ==> s' == s)
            && (winner >= 0 ==>
                  && Taken(ps[winner].config).Some? && ps[winner].version == AppliedVersion(s'.config) > base
                  && s'.config == Overwritten(s.config, Taken(ps[winner].config).value, ps[winner].version))
    decreases |ps|
  {
    hide Consistent, Taken, Overwritten, Pushed, AppliedVersion;
    winner := -1;
    if ps != [] {
      var p, rest := ps[0], ps[1..];
      PushedIsAfter(s, p, fate);
      var mid := Pushed(s, p, fate).state;
      var w := PushesLand(mid, rest, fate);
      var taken := Taken(p.config);
      if taken.Some? {
        OverwrittenVersion(s.config, taken.value, p.version);
      }
      if w >= 0 {
        winner := w + 1;
        assert ps[winner] == rest[w];
        if taken.Some? {
          SecondPushWins(s.config, taken.value, Taken(rest[w].config).value, p.version, rest[w].version);
        }
      } else if p.version > AppliedVersion(s.config) && taken.Some? {
        winner := 0;
      }
      var s', base := PushedAll(s, ps, fate), AppliedVersion(s.config);
      assert Highest(ps, base, AppliedVersion(s'.config)) by {
        assert forall i | 0 < i < |ps| :: ps[i] == rest[i - 1];
      }
    }
  }

  /**
   Pushes form a last-writer-wins register: with no local edit between, two
   deliveries of the same pushes, in any orders and with any repetitions, leave
   the node on the same config. It has the highest version among the pushes a
   node takes above the one it had, with what that push is taken as, which is
   its own content when it is legal; or it is untouched when there is none.
   */
  lemma LastWriterWins(s: State, ps: seq<PushFrame>, qs: seq<PushFrame>, fate: Fate)
    requires Consistent(s) && s.config.microwaveprop.Some? && Reliable(fate)
    requires forall p :: p in ps <==> p in qs
    requires Functional(ps)
    ensures PushedAll(s, ps, fate).config == PushedAll(s, qs, fate).config
    ensures Highest(ps, AppliedVersion(s.config), AppliedVersion(PushedAll(s, ps, fate).config))
    ensures AppliedVersion(PushedAll(s, ps, fate).config) == AppliedVersion(s.config) ==>
              PushedAll(s, ps, fate) == s
    ensures forall i | 0 <= i < |ps| && Taken(ps[i].config).Some?
                       && ps[i].version == AppliedVersion(PushedAll(s, ps, fate).config) > AppliedVersion(s.config) ::
              && FromConfig(PushedAll(s, ps, fate).config) == Taken(ps[i].config).value
              && (Legal(ps[i].config) ==> FromConfig(PushedAll(s, ps, fate).config) == ps[i].config)
  {
    hide Consistent, Taken, Legal, Overwritten, PushedAll, AppliedVersion, FromConfig;
    var a := PushesLand(s, ps, fate);
    var b := PushesLand(s, qs, fate);
    SameHighest(ps, qs, AppliedVersion(s.config), AppliedVersion(PushedAll(s, ps, fate).config),
                AppliedVersion(PushedAll(s, qs, fate).config));
    if a >= 0 {
      assert b >= 0;
      assert qs[b] in ps;
      var p := ps[a].config;
      TakenExactly(p);
      LegalContent(s.config, Taken(p).value, ps[a].version);
    }
  }

  lemma LegalContent(c: Config, p: SyncConfig, version: u64)
    requires Legal(p)
    ensures FromConfig(Overwritten(c, p, version)) == p
  {
    hide BrokenRule, PushFitsLines;
    KnownModeIsClean(p.mode);
    hide ParseMode, ModeName;
  }

  lemma SameHighest(ps: seq<PushFrame>, qs: seq<PushFrame>, base: nat, v: nat, w: nat)
    requires forall p :: p in ps <==> p in qs
    requires Highest(ps, base, v) && Highest(qs, base, w)
    ensures v == w
  {
    hide Taken;
    if v > base {
      var i :| 0 <= i < |ps| && Taken(ps[i].config).Some? && ps[i].version == v;
      assert ps[i] in qs;
    }
    if w > base {
      var i :| 0 <= i < |qs| && Taken(qs[i].config).Some? && qs[i].version == w;
      assert qs[i] in ps;
    }
  }
}
