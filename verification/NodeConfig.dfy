/** The node's configuration: reading it from the yaml mapping, and its rules. */
module NodeConfig {
  import opened Results
  import opened Numbers
  import Text
  import Yaml

  type u32 = n: nat | n < 0x1_0000_0000

  type u64 = n: nat | n < 0x1_0000_0000_0000_0000

  datatype Mode = Usb | Lsb | Am | Nfm | Wfm | Cw | Beacon

  datatype BeaconConfig = BeaconConfig(offsetHz: F64, bandwidthHz: F64)

  datatype HttpConfig = HttpConfig(bind: string)

  datatype MicrowavepropConfig = MicrowavepropConfig(
    enabled: bool,
    monitorToken: string,
    beaconId: string,
    gridsquare: string,
    configVersion: u64
  )

  datatype UpdateConfig = UpdateConfig(enabled: bool, auto: bool, checkInterval: u32)

  datatype Config = Config(
    frequency: F64,
    mode: Mode,
    sampleRate: F64,
    gain: Option<F64>,
    driver: string,
    ppm: F64,
    periodSeconds: u32,
    beacon: Option<BeaconConfig>,
    http: HttpConfig,
    microwaveprop: Option<MicrowavepropConfig>,
    update: UpdateConfig
  )

  const DEFAULT_BIND := "0.0.0.0:5760"
  const DEFAULT_CHECK_INTERVAL: u32 := 3600
  const MIN_CHECK_INTERVAL: u32 := 60

  /** Why a config was refused. */
  datatype Error =
    | Syntax(error: Yaml.Error)
    | Missing(key: string)
    | NotScalar(key: string)
    | NotMapping(key: string)
    | NotNumber(key: string)
    | NotInteger(key: string)
    | TooLarge(key: string)
    | NotBoolean(key: string)
    | UnknownMode(name: string)
    | Rejected(rule: Rule)

  datatype Rule =
    | Frequency | SampleRate | Gain | Ppm | Period | BeaconMissing | BeaconOffset
    | BeaconBandwidth | BeaconTooWide | BeaconOutside | Gridsquare | CheckInterval

  function ParseMode(s: string): Result<Mode, Error> {
    if s == "usb" then Success(Usb)
    else if s == "lsb" then Success(Lsb)
    else if s == "am" then Success(Am)
    else if s == "nfm" then Success(Nfm)
    else if s == "wfm" then Success(Wfm)
    else if s == "cw" then Success(Cw)
    else if s == "beacon" then Success(Beacon)
    else Failure(UnknownMode(s))
  }

  function ModeName(m: Mode): string {
    match m
    case Usb => "usb"
    case Lsb => "lsb"
    case Am => "am"
    case Nfm => "nfm"
    case Wfm => "wfm"
    case Cw => "cw"
    case Beacon => "beacon"
  }

  /** A mode name parses to a mode exactly when it is that mode's own name. */
  lemma ModeNames(s: string, m: Mode)
    ensures ParseMode(s) == Success(m) <==> s == ModeName(m)
  {
  }

  /** Offset and width of the signal passband in Hz. */
  function PassbandFor(mode: Mode, beacon: Option<BeaconConfig>): (F64, F64) {
    match mode
    case Usb => (Whole(1500), Whole(2700))
    case Lsb => (Finite(true, 1500, ""), Whole(2700))
    case Am => (Whole(0), Whole(6000))
    case Nfm => (Whole(0), Whole(12500))
    case Wfm => (Whole(0), Whole(150000))
    case Cw => (Whole(700), Whole(500))
    case Beacon =>
      if beacon.Some? then (beacon.value.offsetHz, beacon.value.bandwidthHz)
      else (Whole(0), Whole(50))
  }

  // ---------------- reading --------------------------------------------

  function ScalarOf(v: Yaml.Value, key: string): Result<string, Error> {
    if v.Scalar? then Success(v.text) else Failure(NotScalar(key))
  }

  function F64Of(v: Yaml.Value, key: string): Result<F64, Error> {
    var s :- ScalarOf(v, key);
    var x := Read(s);
    if x.Some? then Success(x.value) else Failure(NotNumber(key))
  }

  function F64At(m: Yaml.Mapping, key: string, default: F64): Result<F64, Error> {
    if key in m then F64Of(m[key], key) else Success(default)
  }

  /** `parse_usize` on a 64-bit target, then `u32::try_from`. */
  function U32At(m: Yaml.Mapping, key: string, default: u32): Result<u32, Error> {
    if key !in m then Success(default)
    else
      var s :- ScalarOf(m[key], key);
      var n := ParseUnsigned(s, 0x1_0000_0000_0000_0000);
      if n.None? then Failure(NotInteger(key))
      else if n.value < 0x1_0000_0000 then Success(n.value)
      else Failure(TooLarge(key))
  }

  function U64At(m: Yaml.Mapping, key: string, default: u64): Result<u64, Error> {
    if key !in m then Success(default)
    else
      var s :- ScalarOf(m[key], key);
      var n := ParseUnsigned(s, 0x1_0000_0000_0000_0000);
      if n.Some? then Success(n.value) else Failure(NotInteger(key))
  }

  function BoolAt(m: Yaml.Mapping, key: string, default: bool): Result<bool, Error> {
    if key !in m then Success(default)
    else
      var s :- ScalarOf(m[key], key);
      if s == "true" then Success(true)
      else if s == "false" then Success(false)
      else Failure(NotBoolean(key))
  }

  function TextAt(m: Yaml.Mapping, key: string, default: string): Result<string, Error> {
    if key in m then ScalarOf(m[key], key) else Success(default)
  }

  /** The credentials are read leniently: anything but a scalar counts as empty. */
  function TextOrEmpty(m: Yaml.Mapping, key: string): string {
    if key in m && m[key].Scalar? then m[key].text else ""
  }

  function BlockAt(m: Yaml.Mapping, key: string): Result<Yaml.Mapping, Error>
    requires key in m
  {
    if m[key].Map? then Success(m[key].entries) else Failure(NotMapping(key))
  }

  function BeaconAt(m: Yaml.Mapping): Result<Option<BeaconConfig>, Error> {
    if "beacon" !in m then Success(None)
    else
      var b :- BlockAt(m, "beacon");
      var offset :- F64At(b, "offset_hz", Whole(0));
      var bandwidth :- F64At(b, "bandwidth_hz", Whole(50));
      Success(Some(BeaconConfig(offset, bandwidth)))
  }

  function HttpAt(m: Yaml.Mapping): Result<HttpConfig, Error> {
    if "http" !in m then Success(HttpConfig(DEFAULT_BIND))
    else
      var h :- BlockAt(m, "http");
      var bind :- TextAt(h, "bind", DEFAULT_BIND);
      Success(HttpConfig(bind))
  }

  function MicrowavepropAt(m: Yaml.Mapping): Result<Option<MicrowavepropConfig>, Error> {
    if "microwaveprop" !in m then Success(None)
    else
      var b :- BlockAt(m, "microwaveprop");
      var enabled :- BoolAt(b, "enabled", true);
      var version :- U64At(b, "config_version", 0);
      Success(Some(MicrowavepropConfig(enabled, TextOrEmpty(b, "monitor_token"),
                                       TextOrEmpty(b, "beacon_id"), TextOrEmpty(b, "gridsquare"), version)))
  }

  function UpdateAt(m: Yaml.Mapping): Result<UpdateConfig, Error> {
    if "update" !in m then Success(UpdateConfig(true, true, DEFAULT_CHECK_INTERVAL))
    else
      var b :- BlockAt(m, "update");
      var interval :- U32At(b, "check_interval", DEFAULT_CHECK_INTERVAL);
      var enabled :- BoolAt(b, "enabled", true);
      var auto :- BoolAt(b, "auto", true);
      Success(UpdateConfig(enabled, auto, interval))
  }

  function RequiredAt(m: Yaml.Mapping, key: string): Result<string, Error> {
    if key in m then ScalarOf(m[key], key) else Failure(Missing(key))
  }

  function RequiredF64At(m: Yaml.Mapping, key: string): Result<F64, Error> {
    var s :- RequiredAt(m, key);
    F64Of(Yaml.Scalar(s), key)
  }

  function GainAt(m: Yaml.Mapping): Result<Option<F64>, Error> {
    if "gain" !in m then Success(None)
    else
      var g :- F64Of(m["gain"], "gain");
      Success(Some(g))
  }

  function FromMap(m: Yaml.Mapping): Result<Config, Error> {
    var frequency :- RequiredF64At(m, "frequency");
    var modeName :- RequiredAt(m, "mode");
    var mode :- ParseMode(modeName);
    var sampleRate :- F64At(m, "sample_rate", Whole(250000));
    var gain :- GainAt(m);
    var driver :- TextAt(m, "driver", "rtlsdr");
    var ppm :- F64At(m, "ppm", Whole(0));
    var period :- U32At(m, "period_seconds", 60);
    var beacon :- BeaconAt(m);
    var http :- HttpAt(m);
    var microwaveprop :- MicrowavepropAt(m);
    var update :- UpdateAt(m);
    Validated(Config(frequency, mode, sampleRate, gain, driver, ppm, period, beacon, http,
                     microwaveprop, update))
  }

  /** `Config::from_yaml_str`. */
  function FromYaml(text: string): Result<Config, Error> {
    var parsed := Yaml.Parsed(text);
    if parsed.Failure? then Failure(Syntax(parsed.error)) else FromMap(parsed.value)
  }

  // ---------------- the rules ------------------------------------------

  function Abs(x: real): real {
    if x < 0.0 then -x else x
  }

  function BrokenBeaconRule(b: BeaconConfig, sampleRate: F64): Option<Rule>
    requires sampleRate.Finite?
  {
    if !b.offsetHz.Finite? then Some(BeaconOffset)
    else if !b.bandwidthHz.Finite? || Value(b.bandwidthHz) <= 0.0 then Some(BeaconBandwidth)
    else if Value(b.bandwidthHz) > Value(sampleRate) / 2.0 then Some(BeaconTooWide)
    else if Abs(Value(b.offsetHz)) + Value(b.bandwidthHz) / 2.0 > Value(sampleRate) / 2.0
    then Some(BeaconOutside)
    else None
  }

  /** The first rule of `Config::validate` a config breaks, in the code's order. */
  function BrokenRule(c: Config): Option<Rule> {
    if !c.frequency.Finite? || Value(c.frequency) <= 0.0 then Some(Frequency)
    else if !c.sampleRate.Finite? || Value(c.sampleRate) < 250000.0 then Some(SampleRate)
    else if c.gain.Some? && !c.gain.value.Finite? then Some(Gain)
    else if !c.ppm.Finite? then Some(Ppm)
    else if c.periodSeconds < 5 then Some(Period)
    else if c.mode == Beacon && c.beacon.None? then Some(BeaconMissing)
    else if c.mode == Beacon && BrokenBeaconRule(c.beacon.value, c.sampleRate).Some? then
      BrokenBeaconRule(c.beacon.value, c.sampleRate)
    else if c.microwaveprop.Some? && !GridsquareFits(c.microwaveprop.value.gridsquare) then
      Some(Gridsquare)
    else if c.update.checkInterval < MIN_CHECK_INTERVAL then Some(CheckInterval)
    else None
  }

  predicate GridsquareFits(g: string) {
    g == "" || 4 <= Text.ByteLen(g) <= 20
  }

  function Validated(c: Config): Result<Config, Error> {
    if BrokenRule(c).None? then Success(c) else Failure(Rejected(BrokenRule(c).value))
  }

  // ---------------- what an accepted config looks like ------------------

  /** Every text the config writer puts in quotes fits on one line. */
  predicate FitsLines(c: Config) {
    && Text.NoNewline(c.driver) && Text.NoNewline(c.http.bind)
    && (c.microwaveprop.Some? ==>
          && Text.NoNewline(c.microwaveprop.value.monitorToken)
          && Text.NoNewline(c.microwaveprop.value.beaconId)
          && Text.NoNewline(c.microwaveprop.value.gridsquare))
  }

  /** What `FromYaml` can return. */
  predicate Acceptable(c: Config) {
    BrokenRule(c).None? && FitsLines(c)
  }

  function WithVersion(c: Config, version: u64): Config {
    if c.microwaveprop.None? then c
    else c.(microwaveprop := Some(c.microwaveprop.value.(configVersion := version)))
  }

  /** The last version the website handed this node; 0 without the block. */
  function AppliedVersion(c: Config): u64 {
    if c.microwaveprop.Some? then c.microwaveprop.value.configVersion else 0
  }
}
