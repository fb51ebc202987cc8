/**
 What ends up in each field of the config: from the keys of a text, with the
 default of every key that may be absent, and from the fields of an update, with
 what stands in for each one that may be left out. And what GET shows of it.
 */
module ConfigFields {
  import opened Results
  import opened Numbers
  import opened NodeConfig
  import opened YamlRoundTrip
  import opened ConfigText
  import opened BareMode
  import opened ConfigStore
  import Text
  import Yaml

  // ---------------- the fields of an update -----------------------------

  /** The values an update always carries, and those that fall back to a fixed value or to what is running. */
  predicate ScalarsTaken(c: Config, body: ConfigUpdate, current: Config) {
    && c.frequency == body.frequency && c.driver == body.driver && c.sampleRate == body.sampleRate
    && (body.ppm.Some? ==> c.ppm == body.ppm.value)
    && (body.ppm.None? ==> c.ppm == Finite(false, 0, ""))
    && (body.periodSeconds.Some? ==> c.periodSeconds == body.periodSeconds.value)
    && (body.periodSeconds.None? ==> c.periodSeconds == current.periodSeconds)
    && (body.gain.Some? ==> c.gain == body.gain)
  }

  predicate BlocksTaken(c: Config, body: ConfigUpdate, current: Config) {
    && (body.beacon.Some? ==> c.beacon == body.beacon)
    && (body.http.Some? ==> c.http.bind == body.http.value.bind)
    && (body.http.None? ==> c.http.bind == "0.0.0.0:5760")
    && (body.update.Some? ==> c.update == body.update.value)
    && (body.update.None? ==> c.update == current.update)
  }

  /** The `microwaveprop` block of an update that has one: a redacted token is the one there is. */
  predicate CredentialsTaken(c: Config, m: MicrowavepropUpdate, current: Config, version: Option<u64>) {
    && c.microwaveprop.Some?
    && var n := c.microwaveprop.value;
       && n.enabled == m.enabled && n.beaconId == m.beaconId && n.gridsquare == m.gridsquare
       && (m.monitorToken != "redacted" ==> n.monitorToken == m.monitorToken)
       && (m.monitorToken == "redacted" && current.microwaveprop.Some? ==>
             n.monitorToken == current.microwaveprop.value.monitorToken)
       && (m.monitorToken == "redacted" && current.microwaveprop.None? ==> n.monitorToken == "")
       && (version.Some? ==> n.configVersion == version.value)
       && (version.None? && current.microwaveprop.Some? ==>
             n.configVersion == current.microwaveprop.value.configVersion)
       && (version.None? && current.microwaveprop.None? ==> n.configVersion == 0)
  }

  /** Field by field, whatever string stands for the mode: what a taken update leaves in the config. */
  lemma FieldsAreTaken(body: ConfigUpdate, current: Config, version: Option<u64>)
    requires FromYaml(Rendered(body, current, version)).Success?
    ensures var c := FromYaml(Rendered(body, current, version)).value;
            && ScalarsTaken(c, body, current) && BlocksTaken(c, body, current)
            && (body.microwaveprop.Some? ==> CredentialsTaken(c, body.microwaveprop.value, current, version))
  {
    hide FromYaml, Rendered, BodyFitsLines;
    AnyModeReads(body, current, version);
  }

  /** With a clean mode word nothing else comes along: the mode is the word, and what is left out is absent. */
  lemma NothingElseIsTaken(body: ConfigUpdate, current: Config, version: Option<u64>)
    requires CleanScalar(body.mode) && FromYaml(Rendered(body, current, version)).Success?
    ensures var c := FromYaml(Rendered(body, current, version)).value;
            && body.mode == ModeName(c.mode)
            && (body.gain.None? ==> c.gain.None?) && (body.beacon.None? ==> c.beacon.None?)
            && (body.microwaveprop.None? ==> c.microwaveprop.None?)
  {
    hide FromYaml, Rendered, BodyFitsLines, CleanScalar, BrokenRule;
    RenderedUpdateReads(body, current, version);
    var c := FromYaml(Rendered(body, current, version)).value;
    ModeNames(body.mode, c.mode);
    hide ParseMode, ModeName;
  }

  /** So a PUT that succeeds stores the token it carries, on disk as well as in memory. */
  lemma PutStoresItsFields(s: State, body: ConfigUpdate, fate: Fate)
    requires Applied(s, body, None, fate).result.Success?
    ensures var s' := Applied(s, body, None, fate).state;
            && FromYaml(s'.disk) == Success(s'.config) && s'.worker == s'.config
            && ScalarsTaken(s'.config, body, s.config) && BlocksTaken(s'.config, body, s.config)
            && (body.microwaveprop.Some? ==> CredentialsTaken(s'.config, body.microwaveprop.value, s.config, None))
  {
    hide FromYaml, Rendered, ScalarsTaken, BlocksTaken, CredentialsTaken;
    FieldsAreTaken(body, s.config, None);
  }

  // ---------------- what GET shows --------------------------------------

  /** A view shows every field as it is, except that it does not depend on the token. */
  lemma ViewHidesTheToken(c: Config, token: string)
    requires c.microwaveprop.Some?
    ensures var v := ToView(c);
            && ToView(c.(microwaveprop := Some(c.microwaveprop.value.(monitorToken := token)))) == v
            && v.microwaveprop.Some? && v.microwaveprop.value.monitorToken == "redacted"
  {
    hide ModeName;
  }

  lemma ViewShowsTheRest(c: Config)
    ensures var v := ToView(c);
            && v.frequency == c.frequency && v.mode == ModeName(c.mode) && v.driver == c.driver
            && v.sampleRate == c.sampleRate && v.gain == c.gain && v.ppm == c.ppm
            && v.periodSeconds == c.periodSeconds && v.beacon == c.beacon && v.http == c.http && v.update == c.update
            && (v.microwaveprop.Some? <==> c.microwaveprop.Some?)
            && (c.microwaveprop.Some? ==>
                  && v.microwaveprop.value.enabled == c.microwaveprop.value.enabled
                  && v.microwaveprop.value.beaconId == c.microwaveprop.value.beaconId
                  && v.microwaveprop.value.gridsquare == c.microwaveprop.value.gridsquare)
  {
    hide ModeName;
  }

  // ---------------- the words of the modes ------------------------------

  /** The seven words, and no other, are modes. */
  lemma ModeWords(s: string)
    ensures ParseMode(s).Success? <==> s in {"usb", "lsb", "am", "nfm", "wfm", "cw", "beacon"}
    ensures ModeName(Usb) == "usb" && ModeName(Lsb) == "lsb" && ModeName(Am) == "am" && ModeName(Nfm) == "nfm"
    ensures ModeName(Wfm) == "wfm" && ModeName(Cw) == "cw" && ModeName(Beacon) == "beacon"
  {
  }

  /** The band a mode listens to, from its lower to its upper edge in Hz from the tuned frequency. */
  predicate ListensTo(mode: Mode, beacon: Option<BeaconConfig>, low: real, high: real) {
    var (offset, width) := PassbandFor(mode, beacon);
    && offset.Finite? && width.Finite?
    && Value(offset) - Value(width) / 2.0 == low && Value(offset) + Value(width) / 2.0 == high
  }

  /** Sideband modes listen to 150 to 2850 Hz on their own side, CW around 700 Hz, the others around the carrier. */
  lemma ModesListenTo(beacon: Option<BeaconConfig>)
    ensures ListensTo(Usb, beacon, 150.0, 2850.0) && ListensTo(Lsb, beacon, -2850.0, -150.0)
    ensures ListensTo(Am, beacon, -3000.0, 3000.0) && ListensTo(Nfm, beacon, -6250.0, 6250.0)
    ensures ListensTo(Wfm, beacon, -75000.0, 75000.0) && ListensTo(Cw, beacon, 450.0, 950.0)
    ensures beacon.None? ==> ListensTo(Beacon, beacon, -25.0, 25.0)
    ensures beacon.Some? && beacon.value.offsetHz.Finite? && beacon.value.bandwidthHz.Finite? ==>
              var offset, width := Value(beacon.value.offsetHz), Value(beacon.value.bandwidthHz);
              ListensTo(Beacon, beacon, offset - width / 2.0, offset + width / 2.0)
  {
    assert FracValue("") == 0.0;
  }

  // ---------------- the keys of a text ----------------------------------

  /** A number under a key, or what stands in for it. */
  predicate FloatUnder(m: Yaml.Mapping, key: string, x: F64, default: F64) {
    if key in m then m[key].Scalar? && Read(m[key].text) == Some(x) else x == default
  }

  predicate NatUnder(m: Yaml.Mapping, key: string, n: nat, default: nat) {
    if key in m then m[key].Scalar? && ParseUnsigned(m[key].text, 0x1_0000_0000_0000_0000) == Some(n) else n == default
  }

  predicate TextUnder(m: Yaml.Mapping, key: string, s: string, default: string) {
    if key in m then m[key] == Yaml.Scalar(s) else s == default
  }

  predicate FlagUnder(m: Yaml.Mapping, key: string, b: bool) {
    if key in m then m[key] == Yaml.Scalar(if b then "true" else "false") else b
  }

  /** Credentials are optional, and anything but a scalar counts as absent. */
  predicate CredentialUnder(m: Yaml.Mapping, key: string, s: string) {
    if key in m && m[key].Scalar? then s == m[key].text else s == ""
  }

  predicate ScalarsAreRead(m: Yaml.Mapping, c: Config) {
    && "frequency" in m && m["frequency"].Scalar? && Read(m["frequency"].text) == Some(c.frequency)
    && "mode" in m && m["mode"] == Yaml.Scalar(ModeName(c.mode))
    && TextUnder(m, "driver", c.driver, "rtlsdr")
    && FloatUnder(m, "sample_rate", c.sampleRate, Whole(250000))
    && FloatUnder(m, "ppm", c.ppm, Whole(0))
    && NatUnder(m, "period_seconds", c.periodSeconds, 60)
    && (c.gain.Some? <==> "gain" in m) && (c.gain.Some? ==> FloatUnder(m, "gain", c.gain.value, Whole(0)))
  }

  predicate BlocksAreRead(m: Yaml.Mapping, c: Config) {
    && BeaconIsRead(m, c) && HttpIsRead(m, c) && MicrowavepropIsRead(m, c) && UpdateIsRead(m, c)
  }

  predicate BeaconIsRead(m: Yaml.Mapping, c: Config) {
    && (c.beacon.Some? <==> "beacon" in m)
    && (c.beacon.Some? ==>
          && m["beacon"].Map?
          && FloatUnder(m["beacon"].entries, "offset_hz", c.beacon.value.offsetHz, Whole(0))
          && FloatUnder(m["beacon"].entries, "bandwidth_hz", c.beacon.value.bandwidthHz, Whole(50)))
  }

  predicate HttpIsRead(m: Yaml.Mapping, c: Config) {
    if "http" in m then m["http"].Map? && TextUnder(m["http"].entries, "bind", c.http.bind, "0.0.0.0:5760")
    else c.http.bind == "0.0.0.0:5760"
  }

  predicate MicrowavepropIsRead(m: Yaml.Mapping, c: Config) {
    && (c.microwaveprop.Some? <==> "microwaveprop" in m)
    && (c.microwaveprop.Some? ==>
          && m["microwaveprop"].Map?
          && var b, mw := m["microwaveprop"].entries, c.microwaveprop.value;
             && FlagUnder(b, "enabled", mw.enabled) && NatUnder(b, "config_version", mw.configVersion, 0)
             && CredentialUnder(b, "monitor_token", mw.monitorToken)
             && CredentialUnder(b, "beacon_id", mw.beaconId) && CredentialUnder(b, "gridsquare", mw.gridsquare))
  }

  predicate UpdateIsRead(m: Yaml.Mapping, c: Config) {
    if "update" in m then
      && m["update"].Map?
      && var b := m["update"].entries;
         && FlagUnder(b, "enabled", c.update.enabled) && FlagUnder(b, "auto", c.update.auto)
         && NatUnder(b, "check_interval", c.update.checkInterval, 3600)
    else c.update == UpdateConfig(true, true, 3600)
  }

  predicate KeepsTheRules(c: Config) {
    && c.frequency.Finite? && Value(c.frequency) > 0.0
    && c.sampleRate.Finite? && Value(c.sampleRate) >= 250000.0
    && (c.gain.Some? ==> c.gain.value.Finite?) && c.ppm.Finite? && c.periodSeconds >= 5
    && (c.mode == Beacon ==> c.beacon.Some? && BeaconInside(c.beacon.value, Value(c.sampleRate)))
    && (c.microwaveprop.Some? ==>
          var n := Text.ByteLen(c.microwaveprop.value.gridsquare); n == 0 || 4 <= n <= 20)
    && c.update.checkInterval >= 60
  }

  /** Both edges of the beacon's passband lie inside the sampled spectrum, and it is at most half as wide. */
  predicate BeaconInside(b: BeaconConfig, rate: real) {
    && b.offsetHz.Finite? && b.bandwidthHz.Finite?
    && var offset, width := Value(b.offsetHz), Value(b.bandwidthHz);
       && 0.0 < width <= rate / 2.0
       && -(rate / 2.0) <= offset - width / 2.0 && offset + width / 2.0 <= rate / 2.0
  }

  lemma RulesExactly(c: Config)
    ensures BrokenRule(c).None? <==> KeepsTheRules(c)
  {
    hide Value;
    if c.microwaveprop.Some? { EmptyHasNoBytes(c.microwaveprop.value.gridsquare); }
  }

  lemma EmptyHasNoBytes(s: string)
    ensures Text.ByteLen(s) == 0 <==> s == ""
  {
  }

  /**
   Exactly which texts load, and as what: a text loads as a config if and only
   if it parses to a mapping whose keys say that config, absent keys standing
   for their defaults, and the config keeps the rules.
   */
  lemma LoadsExactly(text: string, c: Config)
    ensures FromYaml(text) == Success(c) <==>
            var parsed := Yaml.Parsed(text);
            parsed.Success? && ScalarsAreRead(parsed.value, c) && BlocksAreRead(parsed.value, c) && KeepsTheRules(c)
  {
    hide Yaml.Parsed, BrokenRule, KeepsTheRules, BlocksAreRead, ScalarsAreRead;
    if Yaml.Parsed(text).Success? {
      MapsExactly(Yaml.Parsed(text).value, c);
    }
    hide FromMap;
  }

  /** The fields of a mapping, each read by itself. */
  predicate FieldsRead(m: Yaml.Mapping, c: Config) {
    && RequiredF64At(m, "frequency") == Success(c.frequency)
    && RequiredAt(m, "mode").Success? && ParseMode(RequiredAt(m, "mode").value) == Success(c.mode)
    && F64At(m, "sample_rate", Whole(250000)) == Success(c.sampleRate) && GainAt(m) == Success(c.gain)
    && TextAt(m, "driver", "rtlsdr") == Success(c.driver) && F64At(m, "ppm", Whole(0)) == Success(c.ppm)
    && U32At(m, "period_seconds", 60) == Success(c.periodSeconds)
    && BeaconAt(m) == Success(c.beacon) && HttpAt(m) == Success(c.http)
    && MicrowavepropAt(m) == Success(c.microwaveprop) && UpdateAt(m) == Success(c.update)
  }

  lemma MapsExactly(m: Yaml.Mapping, c: Config)
    ensures FromMap(m) == Success(c) <==> ScalarsAreRead(m, c) && BlocksAreRead(m, c) && KeepsTheRules(c)
  {
    hide *;
    FieldByField(m, c);
    ScalarsExactly(m, c);
    BlocksExactly(m, c);
    RulesExactly(c);
  }

  lemma FieldByField(m: Yaml.Mapping, c: Config)
    ensures FromMap(m) == Success(c) <==> FieldsRead(m, c) && BrokenRule(c).None?
  {
    hide RequiredF64At, RequiredAt, ParseMode, F64At, GainAt, TextAt, U32At, BeaconAt, HttpAt, MicrowavepropAt,
         UpdateAt, BrokenRule;
  }

  predicate ScalarFieldsRead(m: Yaml.Mapping, c: Config) {
    && RequiredF64At(m, "frequency") == Success(c.frequency)
    && RequiredAt(m, "mode").Success? && ParseMode(RequiredAt(m, "mode").value) == Success(c.mode)
    && F64At(m, "sample_rate", Whole(250000)) == Success(c.sampleRate) && GainAt(m) == Success(c.gain)
    && TextAt(m, "driver", "rtlsdr") == Success(c.driver) && F64At(m, "ppm", Whole(0)) == Success(c.ppm)
    && U32At(m, "period_seconds", 60) == Success(c.periodSeconds)
  }

  lemma ScalarsExactly(m: Yaml.Mapping, c: Config)
    ensures ScalarsAreRead(m, c) <==> ScalarFieldsRead(m, c)
  {
    hide Read, ParseUnsigned;
    if RequiredAt(m, "mode").Success? {
      ModeNames(RequiredAt(m, "mode").value, c.mode);
    }
    hide ParseMode, ModeName;
  }

  lemma BlocksExactly(m: Yaml.Mapping, c: Config)
    ensures BlocksAreRead(m, c) && ScalarFieldsRead(m, c) <==> FieldsRead(m, c)
  {
    hide RequiredF64At, RequiredAt, ParseMode, F64At, GainAt, TextAt, U32At, BeaconAt, HttpAt, MicrowavepropAt,
         UpdateAt, BeaconIsRead, HttpIsRead, MicrowavepropIsRead, UpdateIsRead;
    BeaconExactly(m, c);
    HttpExactly(m, c);
    MicrowavepropExactly(m, c);
    UpdateExactly(m, c);
  }

  lemma BeaconExactly(m: Yaml.Mapping, c: Config)
    ensures BeaconIsRead(m, c) <==> BeaconAt(m) == Success(c.beacon)
  {
    hide Read;
  }

  lemma HttpExactly(m: Yaml.Mapping, c: Config)
    ensures HttpIsRead(m, c) <==> HttpAt(m) == Success(c.http)
  {
  }

  lemma MicrowavepropExactly(m: Yaml.Mapping, c: Config)
    ensures MicrowavepropIsRead(m, c) <==> MicrowavepropAt(m) == Success(c.microwaveprop)
  {
    hide ParseUnsigned;
  }

  lemma UpdateExactly(m: Yaml.Mapping, c: Config)
    ensures UpdateIsRead(m, c) <==> UpdateAt(m) == Success(c.update)
  {
    hide ParseUnsigned;
  }
}
