/**
 Rendering a config update as `config.yaml`, and what reading that text back
 gives: `build_yaml_from_update` against `Config::from_yaml_str`.
 */
module ConfigText {
  import opened Results
  import opened Numbers
  import opened NodeConfig
  import opened YamlRoundTrip
  import Text
  import Yaml

  // ---------------- updates --------------------------------------------

  datatype MicrowavepropUpdate = MicrowavepropUpdate(
    enabled: bool,
    monitorToken: string,
    beaconId: string,
    gridsquare: string
  )

  /** The body of `PUT /api/config`, and what the sync task applies. */
  datatype ConfigUpdate = ConfigUpdate(
    frequency: F64,
    mode: string,
    driver: string,
    sampleRate: F64,
    gain: Option<F64>,
    ppm: Option<F64>,
    periodSeconds: Option<u32>,
    beacon: Option<BeaconConfig>,
    http: Option<HttpConfig>,
    microwaveprop: Option<MicrowavepropUpdate>,
    update: Option<UpdateConfig>
  )

  /** What `GET /api/config` answers. */
  datatype ConfigView = ConfigView(
    frequency: F64,
    mode: string,
    driver: string,
    sampleRate: F64,
    gain: Option<F64>,
    ppm: F64,
    periodSeconds: u32,
    beacon: Option<BeaconConfig>,
    http: HttpConfig,
    microwaveprop: Option<MicrowavepropUpdate>,
    update: UpdateConfig
  )

  const REDACTED := "redacted"

  function ToUpdate(c: Config): ConfigUpdate {
    ConfigUpdate(c.frequency, ModeName(c.mode), c.driver, c.sampleRate, c.gain, Some(c.ppm),
                 Some(c.periodSeconds), c.beacon, Some(c.http),
                 if c.microwaveprop.None? then None
                 else
                   var m := c.microwaveprop.value;
                   Some(MicrowavepropUpdate(m.enabled, m.monitorToken, m.beaconId, m.gridsquare)),
                 Some(c.update))
  }

  function ToView(c: Config): ConfigView {
    ConfigView(c.frequency, ModeName(c.mode), c.driver, c.sampleRate, c.gain, c.ppm,
               c.periodSeconds, c.beacon, c.http,
               if c.microwaveprop.None? then None
               else
                 var m := c.microwaveprop.value;
                 Some(MicrowavepropUpdate(m.enabled, REDACTED, m.beaconId, m.gridsquare)),
               c.update)
  }

  /** The update a client sends when it puts a view back unchanged. */
  function Sent(v: ConfigView): ConfigUpdate {
    ConfigUpdate(v.frequency, v.mode, v.driver, v.sampleRate, v.gain, Some(v.ppm),
                 Some(v.periodSeconds), v.beacon, Some(v.http), v.microwaveprop, Some(v.update))
  }

  // ---------------- rendering ------------------------------------------

  function PreservedToken(current: Config): string {
    if current.microwaveprop.Some? then current.microwaveprop.value.monitorToken else ""
  }

  function TokenOf(m: MicrowavepropUpdate, current: Config): string {
    if m.monitorToken == REDACTED then PreservedToken(current) else m.monitorToken
  }

  function VersionOf(current: Config, version: Option<u64>): u64 {
    if version.Some? then version.value else AppliedVersion(current)
  }

  function BoolText(b: bool): string {
    if b then "true" else "false"
  }

  function BindOf(body: ConfigUpdate): string {
    if body.http.Some? then body.http.value.bind else DEFAULT_BIND
  }

  function TuningEntries(body: ConfigUpdate): seq<Entry> {
    [ Single(Bare("frequency", Show(body.frequency))),
      Single(Bare("mode", body.mode)),
      Single(Leaf.Text("driver", body.driver)),
      Single(Bare("sample_rate", Show(body.sampleRate))) ]
  }

  function GainEntries(body: ConfigUpdate): seq<Entry> {
    if body.gain.Some? then [Single(Bare("gain", Show(body.gain.value)))] else []
  }

  function TimingEntries(body: ConfigUpdate, current: Config): seq<Entry> {
    [ Single(Bare("ppm", Show(if body.ppm.Some? then body.ppm.value else Whole(0)))),
      Single(Bare("period_seconds",
                  NatText(if body.periodSeconds.Some? then body.periodSeconds.value
                          else current.periodSeconds))) ]
  }

  function BeaconLeaves(b: BeaconConfig): seq<Leaf> {
    [Bare("offset_hz", Show(b.offsetHz)), Bare("bandwidth_hz", Show(b.bandwidthHz))]
  }

  function BeaconEntries(body: ConfigUpdate): seq<Entry> {
    if body.beacon.Some? then [Group("beacon", BeaconLeaves(body.beacon.value))] else []
  }

  function HttpEntries(body: ConfigUpdate): seq<Entry> {
    [Group("http", [Leaf.Text("bind", BindOf(body))])]
  }

  function MicrowavepropLeaves(m: MicrowavepropUpdate, current: Config, version: Option<u64>)
    : seq<Leaf>
  {
    [ Bare("enabled", BoolText(m.enabled)),
      Leaf.Text("monitor_token", TokenOf(m, current)),
      Leaf.Text("beacon_id", m.beaconId),
      Leaf.Text("gridsquare", m.gridsquare),
      Bare("config_version", NatText(VersionOf(current, version))) ]
  }

  function MicrowavepropEntries(body: ConfigUpdate, current: Config, version: Option<u64>)
    : seq<Entry>
  {
    if body.microwaveprop.None? then []
    else [Group("microwaveprop", MicrowavepropLeaves(body.microwaveprop.value, current, version))]
  }

  function UpdateOf(body: ConfigUpdate, current: Config): UpdateConfig {
    if body.update.Some? then body.update.value else current.update
  }

  function UpdateLeaves(u: UpdateConfig): seq<Leaf> {
    [ Bare("enabled", BoolText(u.enabled)),
      Bare("auto", BoolText(u.auto)),
      Bare("check_interval", NatText(u.checkInterval)) ]
  }

  function UpdateEntries(body: ConfigUpdate, current: Config): seq<Entry> {
    [Group("update", UpdateLeaves(UpdateOf(body, current)))]
  }

  /** The lines of the document, in the order they are written. */
  function Document(body: ConfigUpdate, current: Config, version: Option<u64>): seq<Entry> {
    TuningEntries(body) + GainEntries(body) + TimingEntries(body, current) + BeaconEntries(body)
    + HttpEntries(body) + MicrowavepropEntries(body, current, version)
    + UpdateEntries(body, current)
  }

  function Rendered(body: ConfigUpdate, current: Config, version: Option<u64>): string {
    DocText(Document(body, current, version))
  }

  lemma {:induction false} DocTextAppend(a: seq<Entry>, b: seq<Entry>)
    ensures DocText(a + b) == DocText(a) + DocText(b)
  {
    hide EntryText;
    if a == [] {
      assert a + b == b;
    } else {
      assert (a + b)[1..] == a[1..] + b;
      DocTextAppend(a[1..], b);
      Text.Regroup(EntryText(a[0]), DocText(a[1..]), DocText(b));
    }
  }

  lemma DocTextOne(e: Entry)
    ensures DocText([e]) == EntryText(e)
  {
    hide EntryText;
    assert [e][1..] == [];
    assert EntryText(e) + "" == EntryText(e);
  }

  // ---------------- what the update means -------------------------------

  /** The config an update asks for, before the rules are applied. */
  function Meant(body: ConfigUpdate, current: Config, version: Option<u64>, mode: Mode): Config {
    Config(
      body.frequency, mode, body.sampleRate, body.gain, body.driver,
      if body.ppm.Some? then body.ppm.value else Whole(0),
      if body.periodSeconds.Some? then body.periodSeconds.value else current.periodSeconds,
      body.beacon,
      HttpConfig(BindOf(body)),
      if body.microwaveprop.None? then None
      else
        var m := body.microwaveprop.value;
        Some(MicrowavepropConfig(m.enabled, TokenOf(m, current), m.beaconId, m.gridsquare,
                                 VersionOf(current, version))),
      UpdateOf(body, current))
  }

  function Resolved(body: ConfigUpdate, current: Config, version: Option<u64>)
    : Result<Config, Error>
  {
    var mode :- ParseMode(body.mode);
    Validated(Meant(body, current, version, mode))
  }

  /** Every quoted text of the update fits on one line. */
  predicate BodyFitsLines(body: ConfigUpdate, current: Config) {
    && Text.NoNewline(body.driver) && Text.NoNewline(BindOf(body))
    && (body.microwaveprop.Some? ==>
          && Text.NoNewline(TokenOf(body.microwaveprop.value, current))
          && Text.NoNewline(body.microwaveprop.value.beaconId)
          && Text.NoNewline(body.microwaveprop.value.gridsquare))
  }

  // ---------------- looking a document up -------------------------------

  lemma {:induction false} MeaningLacks(es: seq<Entry>, k: string)
    requires forall e | e in es :: EntryKey(e) != k
    ensures k !in Meaning(es)
  {
    hide EntryKey, EntryValue;
    if es != [] {
      assert es[0] in es && forall e | e in es[1..] :: e in es;
      MeaningLacks(es[1..], k);
    }
  }

  lemma {:induction false} MeaningAppend(a: seq<Entry>, b: seq<Entry>)
    ensures Meaning(a + b) == Meaning(a) + Meaning(b)
  {
    hide EntryKey, EntryValue;
    if a == [] {
      assert a + b == b;
    } else {
      assert (a + b)[1..] == a[1..] + b;
      MeaningAppend(a[1..], b);
      MapJoin(map[EntryKey(a[0]) := EntryValue(a[0])], Meaning(a[1..]), Meaning(b));
    }
  }

  lemma MapJoin<K, V>(a: map<K, V>, b: map<K, V>, c: map<K, V>)
    ensures a + (b + c) == a + b + c
  {
  }

  /** The place of a top-level key in the document. */
  function Rank(k: string): nat {
    if |k| == 9 then 0                                              // frequency
    else if |k| == 4 then if k[0] == 'm' then 1 else if k[0] == 'g' then 4 else 8
    else if |k| == 6 then if k[0] == 'd' then 2 else if k[0] == 'b' then 7 else 10
    else if |k| == 11 then 3                                        // sample_rate
    else if |k| == 3 then 5                                         // ppm
    else if |k| == 14 then 6                                        // period_seconds
    else if |k| == 13 then 9                                        // microwaveprop
    else 11
  }

  /** Entries in document order, with ranks from `lo` up to `hi`. */
  predicate Within(es: seq<Entry>, lo: nat, hi: nat) {
    && (forall i | 0 <= i < |es| :: lo <= Rank(EntryKey(es[i])) < hi)
    && (forall i, j | 0 <= i < j < |es| :: Rank(EntryKey(es[i])) < Rank(EntryKey(es[j])))
    && (forall i | 0 <= i < |es| :: es[i].Group? ==> DistinctLeaves(es[i].leaves))
  }

  lemma WithinAppend(a: seq<Entry>, b: seq<Entry>, lo: nat, mid: nat, hi: nat)
    requires Within(a, lo, mid) && Within(b, mid, hi) && lo <= mid <= hi
    ensures Within(a + b, lo, hi)
  {
    hide Rank, EntryKey, DistinctLeaves;
  }

  lemma WithinLacks(es: seq<Entry>, lo: nat, hi: nat, k: string)
    requires Within(es, lo, hi) && !(lo <= Rank(k) < hi)
    ensures k !in Meaning(es)
  {
    hide Rank, EntryKey, DistinctLeaves;
    forall e | e in es ensures EntryKey(e) != k {
      var i :| 0 <= i < |es| && es[i] == e;
    }
    MeaningLacks(es, k);
  }

  lemma WithinIsDistinct(es: seq<Entry>, lo: nat, hi: nat)
    requires Within(es, lo, hi)
    ensures DistinctEntries(es)
  {
    hide Rank, EntryKey, DistinctLeaves;
  }

  lemma TuningWithin(body: ConfigUpdate)
    ensures Within(TuningEntries(body), 0, 4)
  {
    hide Show;
  }

  lemma TimingWithin(body: ConfigUpdate, current: Config)
    ensures Within(TimingEntries(body, current), 5, 7) && Within(GainEntries(body), 4, 5)
  {
    hide Show, NatText;
  }

  lemma GroupWithin(k: string, ls: seq<Leaf>)
    requires DistinctLeaves(ls)
    ensures Within([Group(k, ls)], Rank(k), Rank(k) + 1)
    ensures Within([], Rank(k), Rank(k) + 1)
  {
    hide DistinctLeaves;
  }

  lemma BlockRanks()
    ensures Rank("beacon") == 7 && Rank("http") == 8 && Rank("microwaveprop") == 9
    ensures Rank("update") == 10
  {
  }

  lemma ScalarRanks()
    ensures Rank("frequency") == 0 && Rank("mode") == 1 && Rank("driver") == 2
    ensures Rank("sample_rate") == 3 && Rank("gain") == 4 && Rank("ppm") == 5
    ensures Rank("period_seconds") == 6
  {
  }

  lemma BlockPiecesWithin(body: ConfigUpdate, current: Config, version: Option<u64>)
    ensures Within(BeaconEntries(body), 7, 8) && Within(HttpEntries(body), 8, 9)
    ensures Within(MicrowavepropEntries(body, current, version), 9, 10)
    ensures Within(UpdateEntries(body, current), 10, 11)
  {
    LeavesDistinct(body, current, version);
    BlockRanks();
    hide DistinctLeaves, BeaconLeaves, MicrowavepropLeaves, UpdateLeaves, UpdateOf, BindOf, Within, Rank;
    if body.beacon.Some? {
      GroupWithin("beacon", BeaconLeaves(body.beacon.value));
    } else {
      GroupWithin("beacon", []);
    }
    GroupWithin("http", [Leaf.Text("bind", BindOf(body))]);
    if body.microwaveprop.Some? {
      GroupWithin("microwaveprop", MicrowavepropLeaves(body.microwaveprop.value, current, version));
    } else {
      GroupWithin("microwaveprop", []);
    }
    GroupWithin("update", UpdateLeaves(UpdateOf(body, current)));
  }

  lemma LeavesDistinct(body: ConfigUpdate, current: Config, version: Option<u64>)
    ensures body.beacon.Some? ==> DistinctLeaves(BeaconLeaves(body.beacon.value))
    ensures body.microwaveprop.Some? ==>
              DistinctLeaves(MicrowavepropLeaves(body.microwaveprop.value, current, version))
    ensures DistinctLeaves(UpdateLeaves(UpdateOf(body, current)))
    ensures DistinctLeaves([Leaf.Text("bind", BindOf(body))]) && DistinctLeaves([])
  {
    hide Show, NatText, TokenOf, BindOf, UpdateOf, BoolText, VersionOf;
  }

  lemma PiecesWithin(body: ConfigUpdate, current: Config, version: Option<u64>)
    ensures Within(TuningEntries(body), 0, 4) && Within(GainEntries(body), 4, 5)
    ensures Within(TimingEntries(body, current), 5, 7)
    ensures Within(BeaconEntries(body), 7, 8) && Within(HttpEntries(body), 8, 9)
    ensures Within(MicrowavepropEntries(body, current, version), 9, 10)
    ensures Within(UpdateEntries(body, current), 10, 11)
  {
    hide *;
    TuningWithin(body);
    TimingWithin(body, current);
    BlockPiecesWithin(body, current, version);
  }

  lemma DocumentIsDistinct(body: ConfigUpdate, current: Config, version: Option<u64>)
    ensures DistinctEntries(Document(body, current, version))
  {
    hide Within, DistinctEntries, TuningEntries, GainEntries, TimingEntries, BeaconEntries,
         HttpEntries, MicrowavepropEntries, UpdateEntries;
    PiecesWithin(body, current, version);
    var a := TuningEntries(body) + GainEntries(body);
    var b := a + TimingEntries(body, current);
    var c := b + BeaconEntries(body);
    var d := c + HttpEntries(body);
    var e := d + MicrowavepropEntries(body, current, version);
    WithinAppend(TuningEntries(body), GainEntries(body), 0, 4, 5);
    WithinAppend(a, TimingEntries(body, current), 0, 5, 7);
    WithinAppend(b, BeaconEntries(body), 0, 7, 8);
    WithinAppend(c, HttpEntries(body), 0, 8, 9);
    WithinAppend(d, MicrowavepropEntries(body, current, version), 0, 9, 10);
    WithinAppend(e, UpdateEntries(body, current), 0, 10, 11);
    WithinIsDistinct(e + UpdateEntries(body, current), 0, 11);
  }

  predicate Agree(a: Yaml.Mapping, b: Yaml.Mapping, k: string) {
    (k in a <==> k in b) && (k in a ==> a[k] == b[k])
  }

  lemma MeaningSplit(body: ConfigUpdate, current: Config, version: Option<u64>)
    ensures Meaning(Document(body, current, version)) ==
            Meaning(TuningEntries(body)) + Meaning(GainEntries(body))
            + Meaning(TimingEntries(body, current)) + Meaning(BeaconEntries(body))
            + Meaning(HttpEntries(body)) + Meaning(MicrowavepropEntries(body, current, version))
            + Meaning(UpdateEntries(body, current))
  {
    hide Meaning, TuningEntries, GainEntries, TimingEntries, BeaconEntries, HttpEntries,
         MicrowavepropEntries, UpdateEntries;
    var p1, p2, p3 := TuningEntries(body), GainEntries(body), TimingEntries(body, current);
    var p4, p5 := BeaconEntries(body), HttpEntries(body);
    var p6, p7 := MicrowavepropEntries(body, current, version), UpdateEntries(body, current);
    MeaningAppend(p1, p2);
    MeaningAppend(p1 + p2, p3);
    MeaningAppend(p1 + p2 + p3, p4);
    MeaningAppend(p1 + p2 + p3 + p4, p5);
    MeaningAppend(p1 + p2 + p3 + p4 + p5, p6);
    MeaningAppend(p1 + p2 + p3 + p4 + p5 + p6, p7);
  }

  /** The piece of the document a key's rank points to is where it is found. */
  lemma Located(body: ConfigUpdate, current: Config, version: Option<u64>, k: string)
    ensures var m, r := Meaning(Document(body, current, version)), Rank(k);
            && (r < 4 ==> Agree(m, Meaning(TuningEntries(body)), k))
            && (r == 4 ==> Agree(m, Meaning(GainEntries(body)), k))
            && (5 <= r < 7 ==> Agree(m, Meaning(TimingEntries(body, current)), k))
            && (r == 7 ==> Agree(m, Meaning(BeaconEntries(body)), k))
            && (r == 8 ==> Agree(m, Meaning(HttpEntries(body)), k))
            && (r == 9 ==> Agree(m, Meaning(MicrowavepropEntries(body, current, version)), k))
            && (r == 10 ==> Agree(m, Meaning(UpdateEntries(body, current)), k))
  {
    hide Within, Meaning, Document, TuningEntries, GainEntries, TimingEntries, BeaconEntries,
         HttpEntries, MicrowavepropEntries, UpdateEntries, Rank;
    PiecesWithin(body, current, version);
    MeaningSplit(body, current, version);
    var r := Rank(k);
    if !(r < 4) { WithinLacks(TuningEntries(body), 0, 4, k); }
    if r != 4 { WithinLacks(GainEntries(body), 4, 5, k); }
    if !(5 <= r < 7) { WithinLacks(TimingEntries(body, current), 5, 7, k); }
    if r != 7 { WithinLacks(BeaconEntries(body), 7, 8, k); }
    if r != 8 { WithinLacks(HttpEntries(body), 8, 9, k); }
    if r != 9 { WithinLacks(MicrowavepropEntries(body, current, version), 9, 10, k); }
    if r != 10 { WithinLacks(UpdateEntries(body, current), 10, 11, k); }
  }

  lemma {:induction false} MeaningHas(es: seq<Entry>, i: nat)
    requires i < |es| && forall j | i < j < |es| :: EntryKey(es[j]) != EntryKey(es[i])
    ensures EntryKey(es[i]) in Meaning(es) && Meaning(es)[EntryKey(es[i])] == EntryValue(es[i])
  {
    hide EntryKey, EntryValue;
    if i > 0 {
      MeaningHas(es[1..], i - 1);
    } else {
      MeaningLacks(es[1..], EntryKey(es[0]));
    }
  }

  lemma {:induction false} LeafMapHas(ls: seq<Leaf>, i: nat)
    requires i < |ls| && DistinctLeaves(ls)
    ensures ls[i].key in LeafMap(ls) && LeafMap(ls)[ls[i].key] == Yaml.Scalar(ls[i].value)
  {
    if i > 0 {
      LeafMapHas(ls[1..], i - 1);
    } else {
      LeafMapLacks(ls[1..], ls[0].key);
    }
  }

  lemma {:induction false} LeafMapLacks(ls: seq<Leaf>, k: string)
    requires forall i | 0 <= i < |ls| :: ls[i].key != k
    ensures k !in LeafMap(ls)
  {
    if ls != [] {
      LeafMapLacks(ls[1..], k);
    }
  }

  lemma WithinHas(es: seq<Entry>, lo: nat, hi: nat, i: nat)
    requires Within(es, lo, hi) && i < |es|
    ensures EntryKey(es[i]) in Meaning(es) && Meaning(es)[EntryKey(es[i])] == EntryValue(es[i])
  {
    hide EntryKey, EntryValue, Rank, DistinctLeaves, Meaning;
    MeaningHas(es, i);
  }

  // ---------------- reading a rendered update ---------------------------

  predicate HasScalar(m: Yaml.Mapping, k: string, text: string) {
    k in m && m[k] == Yaml.Scalar(text)
  }

  lemma ScalarsRead(m: Yaml.Mapping, k: string, default: string)
    ensures forall text | HasScalar(m, k, text) ::
              RequiredAt(m, k) == Success(text) && TextAt(m, k, default) == Success(text)
              && TextOrEmpty(m, k) == text
  {
  }

  lemma FloatReads(m: Yaml.Mapping, k: string, x: F64, default: F64)
    requires HasScalar(m, k, Show(x))
    ensures RequiredF64At(m, k) == Success(x) && F64At(m, k, default) == Success(x)
    ensures F64Of(m[k], k) == Success(x)
  {
    hide Show, Read;
    FloatRoundTrip(x);
  }

  lemma NatReads(m: Yaml.Mapping, k: string, n: nat)
    requires HasScalar(m, k, NatText(n))
    ensures n < 0x1_0000_0000 ==> forall d :: U32At(m, k, d) == Success(n)
    ensures n < 0x1_0000_0000_0000_0000 ==> forall d :: U64At(m, k, d) == Success(n)
  {
    hide NatText, ParseUnsigned;
    UnsignedRoundTrip(n, 0x1_0000_0000_0000_0000);
  }

  lemma BoolReads(m: Yaml.Mapping, k: string, b: bool, default: bool)
    requires HasScalar(m, k, BoolText(b))
    ensures BoolAt(m, k, default) == Success(b)
  {
  }

  lemma TuningRead(body: ConfigUpdate, current: Config, version: Option<u64>)
    ensures var m := Meaning(Document(body, current, version));
            && RequiredF64At(m, "frequency") == Success(body.frequency)
            && RequiredAt(m, "mode") == Success(body.mode)
            && TextAt(m, "driver", "rtlsdr") == Success(body.driver)
            && F64At(m, "sample_rate", Whole(250000)) == Success(body.sampleRate)
  {
    hide Within, Meaning, Document, Show, Rank, RequiredF64At, RequiredAt, TextAt, F64At;
    var es := TuningEntries(body);
    var m := Meaning(Document(body, current, version));
    PiecesWithin(body, current, version);
    ScalarRanks();
    assert HasScalar(m, "frequency", Show(body.frequency)) by {
      WithinHas(es, 0, 4, 0);
      Located(body, current, version, "frequency");
    }
    assert HasScalar(m, "mode", body.mode) by {
      WithinHas(es, 0, 4, 1);
      Located(body, current, version, "mode");
    }
    assert HasScalar(m, "driver", body.driver) by {
      WithinHas(es, 0, 4, 2);
      Located(body, current, version, "driver");
    }
    assert HasScalar(m, "sample_rate", Show(body.sampleRate)) by {
      WithinHas(es, 0, 4, 3);
      Located(body, current, version, "sample_rate");
    }
    FloatReads(m, "frequency", body.frequency, Whole(0));
    ScalarsRead(m, "mode", "");
    ScalarsRead(m, "driver", "rtlsdr");
    FloatReads(m, "sample_rate", body.sampleRate, Whole(250000));
  }

  lemma TimingRead(body: ConfigUpdate, current: Config, version: Option<u64>)
    ensures var m := Meaning(Document(body, current, version));
            var meant := Meant(body, current, version, Usb);
            && GainAt(m) == Success(meant.gain)
            && F64At(m, "ppm", Whole(0)) == Success(meant.ppm)
            && U32At(m, "period_seconds", 60) == Success(meant.periodSeconds)
  {
    hide Within, Meaning, Document, Show, NatText, Rank, F64At, U32At, F64Of, TokenOf, BindOf, UpdateOf, VersionOf;
    var es := TimingEntries(body, current);
    var m := Meaning(Document(body, current, version));
    var meant := Meant(body, current, version, Usb);
    PiecesWithin(body, current, version);
    ScalarRanks();
    Located(body, current, version, "gain");
    if body.gain.Some? {
      assert HasScalar(m, "gain", Show(body.gain.value)) by {
        WithinHas(GainEntries(body), 4, 5, 0);
      }
      FloatReads(m, "gain", body.gain.value, Whole(0));
    } else {
      MeaningLacks(GainEntries(body), "gain");
    }
    assert HasScalar(m, "ppm", Show(meant.ppm)) by {
      WithinHas(es, 5, 7, 0);
      Located(body, current, version, "ppm");
    }
    assert HasScalar(m, "period_seconds", NatText(meant.periodSeconds)) by {
      WithinHas(es, 5, 7, 1);
      Located(body, current, version, "period_seconds");
    }
    FloatReads(m, "ppm", meant.ppm, Whole(0));
    NatReads(m, "period_seconds", meant.periodSeconds);
  }

  lemma BeaconRead(body: ConfigUpdate, current: Config, version: Option<u64>)
    ensures BeaconAt(Meaning(Document(body, current, version))) == Success(body.beacon)
  {
    hide Within, Meaning, Document, Show, Rank, F64At, LeafMap, DistinctLeaves;
    var m := Meaning(Document(body, current, version));
    PiecesWithin(body, current, version);
    BlockRanks();
    Located(body, current, version, "beacon");
    if body.beacon.Some? {
      var b := body.beacon.value;
      var ls := BeaconLeaves(b);
      WithinHas(BeaconEntries(body), 7, 8, 0);
      LeavesDistinct(body, current, version);
      LeafMapHas(ls, 0);
      LeafMapHas(ls, 1);
      FloatReads(LeafMap(ls), "offset_hz", b.offsetHz, Whole(0));
      FloatReads(LeafMap(ls), "bandwidth_hz", b.bandwidthHz, Whole(50));
    } else {
      MeaningLacks(BeaconEntries(body), "beacon");
    }
  }

  lemma HttpRead(body: ConfigUpdate, current: Config, version: Option<u64>)
    ensures HttpAt(Meaning(Document(body, current, version))) == Success(HttpConfig(BindOf(body)))
  {
    hide Within, Meaning, Document, Rank, LeafMap, DistinctLeaves, BindOf;
    PiecesWithin(body, current, version);
    BlockRanks();
    Located(body, current, version, "http");
    WithinHas(HttpEntries(body), 8, 9, 0);
    LeavesDistinct(body, current, version);
    LeafMapHas([Leaf.Text("bind", BindOf(body))], 0);
  }

  lemma MicrowavepropRead(body: ConfigUpdate, current: Config, version: Option<u64>)
    ensures MicrowavepropAt(Meaning(Document(body, current, version))) ==
            Success(Meant(body, current, version, Usb).microwaveprop)
  {
    hide Within, Meaning, Document, Rank, LeafMap, DistinctLeaves, BindOf, UpdateOf, TokenOf,
         VersionOf, BoolText, NatText, BoolAt, U64At, TextOrEmpty;
    PiecesWithin(body, current, version);
    BlockRanks();
    Located(body, current, version, "microwaveprop");
    if body.microwaveprop.Some? {
      var u := body.microwaveprop.value;
      var ls := MicrowavepropLeaves(u, current, version);
      var b := LeafMap(ls);
      WithinHas(MicrowavepropEntries(body, current, version), 9, 10, 0);
      LeavesDistinct(body, current, version);
      LeafMapHas(ls, 0);
      LeafMapHas(ls, 1);
      LeafMapHas(ls, 2);
      LeafMapHas(ls, 3);
      LeafMapHas(ls, 4);
      BoolReads(b, "enabled", u.enabled, true);
      ScalarsRead(b, "monitor_token", "");
      assert HasScalar(b, "monitor_token", TokenOf(u, current));
      ScalarsRead(b, "beacon_id", "");
      assert HasScalar(b, "beacon_id", u.beaconId);
      ScalarsRead(b, "gridsquare", "");
      assert HasScalar(b, "gridsquare", u.gridsquare);
      NatReads(b, "config_version", VersionOf(current, version));
    } else {
      MeaningLacks(MicrowavepropEntries(body, current, version), "microwaveprop");
    }
  }

  lemma UpdateRead(body: ConfigUpdate, current: Config, version: Option<u64>)
    ensures UpdateAt(Meaning(Document(body, current, version))) == Success(UpdateOf(body, current))
  {
    hide Within, Meaning, Document, Rank, LeafMap, DistinctLeaves, BindOf, UpdateOf, BoolText,
         NatText, BoolAt, U32At;
    PiecesWithin(body, current, version);
    BlockRanks();
    Located(body, current, version, "update");
    var u := UpdateOf(body, current);
    var ls := UpdateLeaves(u);
    var b := LeafMap(ls);
    WithinHas(UpdateEntries(body, current), 10, 11, 0);
    LeavesDistinct(body, current, version);
    LeafMapHas(ls, 0);
    LeafMapHas(ls, 1);
    LeafMapHas(ls, 2);
    BoolReads(b, "enabled", u.enabled, true);
    BoolReads(b, "auto", u.auto, true);
    NatReads(b, "check_interval", u.checkInterval);
  }

  lemma DocumentReads(body: ConfigUpdate, current: Config, version: Option<u64>)
    ensures FromMap(Meaning(Document(body, current, version))) == Resolved(body, current, version)
  {
    hide Meaning, Document, RequiredF64At, RequiredAt, TextAt, F64At, GainAt, U32At, BeaconAt,
         HttpAt, MicrowavepropAt, UpdateAt, ParseMode, Validated, BindOf, UpdateOf, TokenOf, VersionOf;
    TuningRead(body, current, version);
    TimingRead(body, current, version);
    BeaconRead(body, current, version);
    HttpRead(body, current, version);
    MicrowavepropRead(body, current, version);
    UpdateRead(body, current, version);
  }

  predicate AllOneLine(es: seq<Entry>) {
    forall i | 0 <= i < |es| :: OneLine(es[i])
  }

  predicate AllClean(es: seq<Entry>) {
    forall i | 0 <= i < |es| :: CleanEntry(es[i])
  }

  lemma AllAppend(a: seq<Entry>, b: seq<Entry>)
    ensures AllClean(a) && AllClean(b) ==> AllClean(a + b)
    ensures AllOneLine(a + b) <==> AllOneLine(a) && AllOneLine(b)
  {
    hide CleanEntry, OneLine;
    var c := a + b;
    if AllOneLine(c) {
      assert forall i | 0 <= i < |a| :: a[i] == c[i];
      assert forall i | 0 <= i < |b| :: b[i] == c[|a| + i];
    }
  }

  lemma CleanScalarKeys()
    ensures CleanKey("frequency") && CleanKey("mode") && CleanKey("driver")
    ensures CleanKey("sample_rate") && CleanKey("gain") && CleanKey("ppm")
    ensures CleanKey("period_seconds")
  {
  }

  lemma CleanBlockKeys()
    ensures CleanKey("beacon") && CleanKey("http") && CleanKey("microwaveprop") && CleanKey("update")
    ensures CleanKey("offset_hz") && CleanKey("bandwidth_hz") && CleanKey("bind")
  {
  }

  lemma CleanCredentialKeys()
    ensures CleanKey("monitor_token") && CleanKey("beacon_id") && CleanKey("gridsquare")
    ensures CleanKey("config_version")
  {
  }

  lemma CleanFlagKeys()
    ensures CleanKey("enabled") && CleanKey("auto") && CleanKey("check_interval")
    ensures CleanScalar("true") && CleanScalar("false")
  {
  }

  lemma CleanLeafKeys()
    ensures CleanKey("enabled") && CleanKey("auto") && CleanKey("check_interval")
    ensures CleanKey("monitor_token") && CleanKey("beacon_id") && CleanKey("gridsquare")
    ensures CleanKey("config_version")
    ensures CleanScalar("true") && CleanScalar("false")
  {
    hide CleanKey, CleanScalar;
    CleanCredentialKeys();
    CleanFlagKeys();
  }

  lemma CleanFitsLine(v: string)
    requires CleanScalar(v)
    ensures Text.NoNewline(v)
  {
  }

  lemma ScalarsClean(body: ConfigUpdate, current: Config)
    requires CleanScalar(body.mode)
    ensures AllClean(TuningEntries(body)) && AllClean(GainEntries(body))
    ensures AllClean(TimingEntries(body, current))
    ensures AllOneLine(TuningEntries(body)) <==> Text.NoNewline(body.driver)
    ensures AllOneLine(GainEntries(body)) && AllOneLine(TimingEntries(body, current))
  {
    CleanScalarKeys();
    hide CleanKey, CleanScalar, Show, NatText, Text.NoNewline;
    var es := TuningEntries(body);
    var ts := TimingEntries(body, current);
    ShowIsClean(body.frequency);
    ShowIsClean(body.sampleRate);
    if body.gain.Some? {
      ShowIsClean(body.gain.value);
      CleanFitsLine(Show(body.gain.value));
    }
    var ppm := if body.ppm.Some? then body.ppm.value else Whole(0);
    ShowIsClean(ppm);
    var period := if body.periodSeconds.Some? then body.periodSeconds.value else current.periodSeconds;
    NatTextIsClean(period);
    CleanFitsLine(Show(body.frequency));
    CleanFitsLine(body.mode);
    CleanFitsLine(Show(body.sampleRate));
    CleanFitsLine(Show(ppm));
    CleanFitsLine(NatText(period));
    assert OneLine(es[2]) <==> Text.NoNewline(body.driver);
  }

  predicate LeavesFit(ls: seq<Leaf>) {
    forall i | 0 <= i < |ls| :: Text.NoNewline(ls[i].value)
  }

  lemma GroupFits(k: string, ls: seq<Leaf>)
    requires CleanKey(k) && forall i | 0 <= i < |ls| :: CleanLeaf(ls[i])
    ensures AllClean([Group(k, ls)]) && (AllOneLine([Group(k, ls)]) <==> LeavesFit(ls))
  {
    hide CleanKey, CleanLeaf, Text.NoNewline;
    var g := [Group(k, ls)];
    assert g[0] == Group(k, ls);
    if LeavesFit(ls) {
      assert OneLine(g[0]);
    }
    if AllOneLine(g) {
      assert OneLine(g[0]);
      assert forall i | 0 <= i < |ls| :: ls[i] in ls;
    }
  }

  lemma BoolTextIsClean(b: bool)
    ensures CleanScalar(BoolText(b)) && Text.NoNewline(BoolText(b))
  {
    CleanLeafKeys();
  }

  lemma BlocksClean(body: ConfigUpdate, current: Config, version: Option<u64>)
    ensures AllClean(BeaconEntries(body)) && AllOneLine(BeaconEntries(body))
    ensures AllClean(HttpEntries(body))
    ensures AllOneLine(HttpEntries(body)) <==> Text.NoNewline(BindOf(body))
    ensures AllClean(UpdateEntries(body, current)) && AllOneLine(UpdateEntries(body, current))
  {
    CleanBlockKeys();
    CleanLeafKeys();
    hide CleanKey, CleanScalar, Show, NatText, Text.NoNewline, AllClean, AllOneLine, BindOf, UpdateOf, BoolText;
    if body.beacon.Some? {
      var b := body.beacon.value;
      ShowIsClean(b.offsetHz);
      ShowIsClean(b.bandwidthHz);
      CleanFitsLine(Show(b.offsetHz));
      CleanFitsLine(Show(b.bandwidthHz));
      GroupFits("beacon", BeaconLeaves(b));
    } else {
      EmptyIsClean();
    }
    var bind := [Leaf.Text("bind", BindOf(body))];
    GroupFits("http", bind);
    assert LeavesFit(bind) <==> Text.NoNewline(bind[0].value);
    var u := UpdateOf(body, current);
    BoolTextIsClean(u.enabled);
    BoolTextIsClean(u.auto);
    NatTextIsClean(u.checkInterval);
    CleanFitsLine(NatText(u.checkInterval));
    GroupFits("update", UpdateLeaves(u));
  }

  lemma EmptyIsClean()
    ensures AllClean([]) && AllOneLine([])
  {
  }

  lemma MicrowavepropClean(body: ConfigUpdate, current: Config, version: Option<u64>)
    ensures AllClean(MicrowavepropEntries(body, current, version))
    ensures AllOneLine(MicrowavepropEntries(body, current, version)) <==>
            (body.microwaveprop.Some? ==>
               && Text.NoNewline(TokenOf(body.microwaveprop.value, current))
               && Text.NoNewline(body.microwaveprop.value.beaconId)
               && Text.NoNewline(body.microwaveprop.value.gridsquare))
  {
    CleanBlockKeys();
    CleanLeafKeys();
    hide CleanKey, CleanScalar, NatText, Text.NoNewline, AllClean, AllOneLine, TokenOf, VersionOf, BoolText;
    if body.microwaveprop.Some? {
      var u := body.microwaveprop.value;
      var v := VersionOf(current, version);
      BoolTextIsClean(u.enabled);
      NatTextIsClean(v);
      CleanFitsLine(NatText(v));
      var ls := MicrowavepropLeaves(u, current, version);
      GroupFits("microwaveprop", ls);
      assert Text.NoNewline(ls[0].value) && Text.NoNewline(ls[4].value);
      assert LeavesFit(ls) <==>
          Text.NoNewline(ls[1].value) && Text.NoNewline(ls[2].value) && Text.NoNewline(ls[3].value);
    } else {
      EmptyIsClean();
    }
  }

  lemma DocumentIsClean(body: ConfigUpdate, current: Config, version: Option<u64>)
    requires CleanScalar(body.mode)
    ensures AllClean(Document(body, current, version))
    ensures AllOneLine(Document(body, current, version)) <==> BodyFitsLines(body, current)
  {
    hide AllClean, AllOneLine, TuningEntries, GainEntries, TimingEntries, BeaconEntries, HttpEntries,
         MicrowavepropEntries, UpdateEntries, CleanScalar, Text.NoNewline, TokenOf, BindOf;
    ScalarsClean(body, current);
    BlocksClean(body, current, version);
    MicrowavepropClean(body, current, version);
    var p1, p2, p3 := TuningEntries(body), GainEntries(body), TimingEntries(body, current);
    var p4, p5 := BeaconEntries(body), HttpEntries(body);
    var p6, p7 := MicrowavepropEntries(body, current, version), UpdateEntries(body, current);
    AllAppend(p1, p2);
    AllAppend(p1 + p2, p3);
    AllAppend(p1 + p2 + p3, p4);
    AllAppend(p1 + p2 + p3 + p4, p5);
    AllAppend(p1 + p2 + p3 + p4 + p5, p6);
    AllAppend(p1 + p2 + p3 + p4 + p5 + p6, p7);
  }

  /**
   Reading a rendered update back gives exactly the config the update means,
   subject to the rules, when its texts fit on their lines, and an error when
   one of them does not. The mode may be any clean word, known or not.
   */
  lemma RenderedUpdateReads(body: ConfigUpdate, current: Config, version: Option<u64>)
    requires CleanScalar(body.mode)
    ensures BodyFitsLines(body, current) ==>
              FromYaml(Rendered(body, current, version)) == Resolved(body, current, version)
    ensures !BodyFitsLines(body, current) ==>
              FromYaml(Rendered(body, current, version)).Failure?
  {
    var es := Document(body, current, version);
    DocumentIsClean(body, current, version);
    DocumentIsDistinct(body, current, version);
    DocumentReads(body, current, version);
    hide Document, DocText, FromMap, Resolved, BodyFitsLines, Meaning, CleanEntry, OneLine,
         Yaml.Parsed, DistinctEntries;
    assert CleanDoc(es);
    if BodyFitsLines(body, current) {
      DocumentRoundTrip(es);
    } else {
      var i :| 0 <= i < |es| && !OneLine(es[i]);
      assert es[i] in es;
      BrokenDocumentFails(es);
    }
  }

  // ---------------- what a config renders back to -----------------------

  lemma ModeNameIsClean(m: Mode)
    ensures CleanScalar(ModeName(m))
  {
  }

  lemma TextFits(m: Yaml.Mapping, key: string, default: string)
    requires forall k | k in m :: m[k].Scalar? ==> Text.NoNewline(m[k].text)
    requires Text.NoNewline(default)
    ensures TextAt(m, key, default).Success? ==> Text.NoNewline(TextAt(m, key, default).value)
    ensures Text.NoNewline(TextOrEmpty(m, key))
  {
  }

  lemma DefaultsFit()
    ensures Text.NoNewline("rtlsdr") && Text.NoNewline(DEFAULT_BIND) && Text.NoNewline("")
  {
  }

  lemma BlocksFit(m: Yaml.Mapping)
    requires OneLineMapping(m)
    ensures HttpAt(m).Success? ==> Text.NoNewline(HttpAt(m).value.bind)
    ensures MicrowavepropAt(m).Success? && MicrowavepropAt(m).value.Some? ==>
              var mw := MicrowavepropAt(m).value.value;
              Text.NoNewline(mw.monitorToken) && Text.NoNewline(mw.beaconId) && Text.NoNewline(mw.gridsquare)
  {
    hide Text.NoNewline, TextAt, TextOrEmpty, BoolAt, U64At;
    DefaultsFit();
    if "http" in m && m["http"].Map? {
      assert OneLineValue(m["http"]);
      TextFits(m["http"].entries, "bind", DEFAULT_BIND);
    }
    if "microwaveprop" in m && m["microwaveprop"].Map? {
      assert OneLineValue(m["microwaveprop"]);
      var b := m["microwaveprop"].entries;
      TextFits(b, "monitor_token", "");
      TextFits(b, "beacon_id", "");
      TextFits(b, "gridsquare", "");
    }
  }

  lemma MappingFits(m: Yaml.Mapping)
    requires OneLineMapping(m) && FromMap(m).Success?
    ensures Acceptable(FromMap(m).value)
  {
    hide Text.NoNewline, RequiredF64At, RequiredAt, TextAt, F64At, GainAt, U32At, BeaconAt, HttpAt,
         MicrowavepropAt, UpdateAt, ParseMode, BrokenRule;
    DefaultsFit();
    BlocksFit(m);
    assert forall k | k in m :: OneLineValue(m[k]);
    TextFits(m, "driver", "rtlsdr");
  }

  /** Nothing the reader accepts breaks a line or a rule. */
  lemma ReadIsAcceptable(text: string)
    requires FromYaml(text).Success?
    ensures Acceptable(FromYaml(text).value)
  {
    hide Yaml.Parsed, Acceptable, FromMap, OneLineMapping;
    ParsedFits(text);
    MappingFits(Yaml.Parsed(text).value);
  }

  lemma VersionKeepsRules(c: Config, version: u64)
    ensures BrokenRule(WithVersion(c, version)) == BrokenRule(c)
    ensures FitsLines(c) ==> FitsLines(WithVersion(c, version))
  {
    hide Value, GridsquareFits, BrokenBeaconRule, Text.NoNewline;
  }

  /** The updates a config's own rendering goes through, in either form. */
  lemma OwnUpdate(c: Config, version: Option<u64>, body: ConfigUpdate)
    requires Acceptable(c) && (body == ToUpdate(c) || body == Sent(ToView(c)))
    ensures CleanScalar(body.mode) && BodyFitsLines(body, c)
    ensures Resolved(body, c, version) == Success(WithVersion(c, VersionOf(c, version)))
  {
    hide Text.NoNewline, CleanScalar, BrokenRule, ModeName, ParseMode;
    ModeNameIsClean(c.mode);
    ModeNames(ModeName(c.mode), c.mode);
    VersionKeepsRules(c, VersionOf(c, version));
    assert Meant(body, c, version, c.mode) == WithVersion(c, VersionOf(c, version));
  }

  /** A config rendered from its own update, at any version, reads back as itself at that version. */
  lemma RenderedConfigReads(c: Config, version: Option<u64>, body: ConfigUpdate)
    requires Acceptable(c) && (body == ToUpdate(c) || body == Sent(ToView(c)))
    ensures FromYaml(Rendered(body, c, version)) == Success(WithVersion(c, VersionOf(c, version)))
  {
    hide Acceptable, CleanScalar, BodyFitsLines, Resolved, FromYaml, Rendered, ToUpdate, ToView, Sent,
         WithVersion, VersionOf;
    OwnUpdate(c, version, body);
    RenderedUpdateReads(body, c, version);
  }

  /** Saving what `GET` showed, or the config's own update, changes nothing. */
  lemma SavingUnchangedIsNoOp(text: string)
    requires FromYaml(text).Success?
    ensures var c := FromYaml(text).value;
            && FromYaml(Rendered(ToUpdate(c), c, None)) == Success(c)
            && FromYaml(Rendered(Sent(ToView(c)), c, None)) == Success(c)
  {
    hide FromYaml, Rendered, ToUpdate, ToView, Sent, Acceptable;
    var c := FromYaml(text).value;
    ReadIsAcceptable(text);
    RenderedConfigReads(c, None, ToUpdate(c));
    RenderedConfigReads(c, None, Sent(ToView(c)));
    assert WithVersion(c, VersionOf(c, None)) == c;
  }

  /** A small accepted config, as an operator might write it. */
  const SAMPLE := Config(Whole(28_330_000), Beacon, Whole(250_000), Some(Whole(10)), "rtlsdr", Whole(0), 60,
                         Some(BeaconConfig(Whole(0), Whole(50))), HttpConfig(DEFAULT_BIND),
                         Some(MicrowavepropConfig(true, "token", "beacon", "EM12", 0)),
                         UpdateConfig(true, true, DEFAULT_CHECK_INTERVAL))

  /** There are texts that load, and say everything a config can say. */
  lemma SampleLoads()
    ensures FromYaml(Rendered(ToUpdate(SAMPLE), SAMPLE, None)) == Success(SAMPLE)
  {
    hide FromYaml, Rendered, ToUpdate;
    assert FracValue("") == 0.0;
    assert Text.ByteLen("EM12") == 4 by {
      assert "EM12"[1..] == "M12" && "M12"[1..] == "12" && "12"[1..] == "2" && "2"[1..] == "";
    }
    assert BrokenRule(SAMPLE).None?;
    RenderedConfigReads(SAMPLE, None, ToUpdate(SAMPLE));
  }

  // ---------------- the rendering method --------------------------------

  lemma DocTextSnoc(start: string, es: seq<Entry>, e: Entry)
    ensures start + DocText(es + [e]) == start + DocText(es) + EntryText(e)
    ensures start + DocText([]) == start
  {
    assert start + "" == start;
    hide EntryText, DocText;
    DocTextAppend(es, [e]);
    DocTextOne(e);
    Text.Regroup(start, DocText(es), EntryText(e));
  }

  lemma DocText2(start: string, a: Entry, b: Entry)
    ensures start + DocText([a, b]) == start + EntryText(a) + EntryText(b)
    ensures start + DocText([a]) == start + EntryText(a)
    ensures start + DocText([]) == start
  {
    hide DocText, EntryText;
    DocTextSnoc(start, [], a);
    DocTextSnoc(start, [a], b);
    assert [] + [a] == [a] && [a] + [b] == [a, b];
  }

  lemma DocText4(start: string, a: Entry, b: Entry, c: Entry, d: Entry)
    ensures start + DocText([a, b, c, d]) ==
            start + EntryText(a) + EntryText(b) + EntryText(c) + EntryText(d)
  {
    hide DocText, EntryText;
    DocText2(start, a, b);
    DocTextSnoc(start, [a, b], c);
    DocTextSnoc(start, [a, b, c], d);
    assert [a, b] + [c] == [a, b, c] && [a, b, c] + [d] == [a, b, c, d];
  }

  function NestedLine(l: Leaf): string {
    Yaml.Nested(LeafLine(l))
  }

  lemma {:induction false} LeafLinesAppend(ls: seq<Leaf>, l: Leaf)
    ensures LeafLines(ls + [l]) == LeafLines(ls) + NestedLine(l)
  {
    hide LeafLine, Yaml.Nested;
    var one := NestedLine(l);
    if ls == [] {
      assert ls + [l] == [l] && [l][1..] == [];
      assert one + "" == one && "" + one == one;
    } else {
      assert (ls + [l])[1..] == ls[1..] + [l];
      LeafLinesAppend(ls[1..], l);
      Text.Regroup(NestedLine(ls[0]), LeafLines(ls[1..]), one);
    }
  }

  /** A block's opening line and its leaves, as they pile up behind `start`. */
  function GroupSoFar(start: string, k: string, ls: seq<Leaf>): string {
    start + (Yaml.OpenLine(k) + LeafLines(ls))
  }

  lemma GroupStep(start: string, k: string, ls: seq<Leaf>, l: Leaf)
    ensures GroupSoFar(start, k, ls + [l]) == GroupSoFar(start, k, ls) + NestedLine(l)
    ensures GroupSoFar(start, k, []) == start + Yaml.OpenLine(k)
    ensures GroupSoFar(start, k, ls) == start + DocText([Group(k, ls)])
  {
    assert Yaml.OpenLine(k) + "" == Yaml.OpenLine(k);
    hide DocText, NestedLine;
    DocTextOne(Group(k, ls));
    LeafLinesAppend(ls, l);
    hide LeafLines, Yaml.OpenLine;
    Text.Regroup(Yaml.OpenLine(k), LeafLines(ls), NestedLine(l));
    Text.Regroup(start, Yaml.OpenLine(k) + LeafLines(ls), NestedLine(l));
  }

  lemma GroupText2(start: string, k: string, a: Leaf, b: Leaf)
    ensures start + DocText([Group(k, [a, b])]) ==
            start + Yaml.OpenLine(k) + NestedLine(a) + NestedLine(b)
    ensures start + DocText([Group(k, [a])]) == start + Yaml.OpenLine(k) + NestedLine(a)
  {
    hide DocText, GroupSoFar, NestedLine, Yaml.OpenLine;
    GroupStep(start, k, [], a);
    GroupStep(start, k, [a], b);
    assert [] + [a] == [a] && [a] + [b] == [a, b];
    GroupStep(start, k, [a, b], b);
  }

  lemma GroupText3(start: string, k: string, a: Leaf, b: Leaf, c: Leaf)
    ensures start + DocText([Group(k, [a, b, c])]) ==
            start + Yaml.OpenLine(k) + NestedLine(a) + NestedLine(b) + NestedLine(c)
  {
    hide DocText, GroupSoFar, NestedLine, Yaml.OpenLine;
    GroupText2(start, k, a, b);
    GroupStep(start, k, [a, b], c);
    assert [a, b] + [c] == [a, b, c];
    GroupStep(start, k, [a, b, c], c);
  }

  lemma GroupText5(start: string, k: string, a: Leaf, b: Leaf, c: Leaf, d: Leaf, e: Leaf)
    ensures start + DocText([Group(k, [a, b, c, d, e])]) ==
            start + Yaml.OpenLine(k) + NestedLine(a) + NestedLine(b) + NestedLine(c) + NestedLine(d)
            + NestedLine(e)
  {
    hide DocText, GroupSoFar, NestedLine, Yaml.OpenLine;
    GroupText3(start, k, a, b, c);
    GroupStep(start, k, [a, b, c], d);
    GroupStep(start, k, [a, b, c, d], e);
    assert [a, b, c] + [d] == [a, b, c, d] && [a, b, c, d] + [e] == [a, b, c, d, e];
    GroupStep(start, k, [a, b, c, d, e], e);
  }

  method WriteScalars(w: Yaml.YamlWriter, body: ConfigUpdate, current: Config)
    modifies w
    ensures w.out == old(w.out) + DocText(TuningEntries(body)) + DocText(GainEntries(body))
                     + DocText(TimingEntries(body, current))
  {
    hide DocText, Show, NatText, Yaml.ScalarLine, Yaml.StringLine;
    ghost var es := TuningEntries(body);
    DocText4(w.out, es[0], es[1], es[2], es[3]);
    w.Scalar("frequency", Show(body.frequency));
    w.Scalar("mode", body.mode);
    w.String("driver", body.driver);
    w.Scalar("sample_rate", Show(body.sampleRate));
    assert w.out == old(w.out) + DocText(TuningEntries(body));
    ghost var tuned := w.out;
    if body.gain.Some? {
      DocText2(w.out, GainEntries(body)[0], GainEntries(body)[0]);
      w.Scalar("gain", Show(body.gain.value));
    } else {
      DocText2(w.out, es[0], es[0]);
    }
    assert w.out == tuned + DocText(GainEntries(body));
    ghost var ts := TimingEntries(body, current);
    DocText2(w.out, ts[0], ts[1]);
    w.Scalar("ppm", Show(if body.ppm.Some? then body.ppm.value else Whole(0)));
    w.Scalar("period_seconds",
             NatText(if body.periodSeconds.Some? then body.periodSeconds.value
                     else current.periodSeconds));
  }

  method WriteBeaconAndHttp(w: Yaml.YamlWriter, body: ConfigUpdate)
    modifies w
    ensures w.out == old(w.out) + DocText(BeaconEntries(body)) + DocText(HttpEntries(body))
  {
    hide DocText, Show, Yaml.ScalarLine, Yaml.StringLine, Yaml.Nested, Yaml.OpenLine;
    if body.beacon.Some? {
      var b := body.beacon.value;
      ghost var ls := BeaconLeaves(b);
      GroupText2(w.out, "beacon", ls[0], ls[1]);
      w.NestedOpen("beacon");
      w.NestedScalar("offset_hz", Show(b.offsetHz));
      w.NestedScalar("bandwidth_hz", Show(b.bandwidthHz));
    } else {
      DocText2(w.out, HttpEntries(body)[0], HttpEntries(body)[0]);
    }
    assert w.out == old(w.out) + DocText(BeaconEntries(body));
    ghost var bind := Leaf.Text("bind", BindOf(body));
    GroupText2(w.out, "http", bind, bind);
    if body.http.Some? {
      w.NestedOpen("http");
      w.NestedString("bind", body.http.value.bind);
    } else {
      w.NestedOpen("http");
      w.NestedString("bind", DEFAULT_BIND);
    }
  }

  method WriteMicrowaveprop(w: Yaml.YamlWriter, body: ConfigUpdate, current: Config,
                            configVersion: Option<u64>)
    modifies w
    ensures w.out == old(w.out) + DocText(MicrowavepropEntries(body, current, configVersion))
  {
    hide DocText, NatText, Yaml.ScalarLine, Yaml.StringLine, Yaml.Nested, Yaml.OpenLine;
    if body.microwaveprop.Some? {
      var preservedToken := PreservedToken(current);
      var version := if configVersion.Some? then configVersion.value else AppliedVersion(current);
      var m := body.microwaveprop.value;
      var token := if m.monitorToken == REDACTED then preservedToken else m.monitorToken;
      ghost var ls := MicrowavepropLeaves(m, current, configVersion);
      GroupText5(w.out, "microwaveprop", ls[0], ls[1], ls[2], ls[3], ls[4]);
      w.NestedOpen("microwaveprop");
      w.NestedScalar("enabled", BoolText(m.enabled));
      w.NestedString("monitor_token", token);
      w.NestedString("beacon_id", m.beaconId);
      w.NestedString("gridsquare", m.gridsquare);
      w.NestedScalar("config_version", NatText(version));
    } else {
      DocText2(w.out, Single(Bare("", "")), Single(Bare("", "")));
    }
  }

  method WriteUpdate(w: Yaml.YamlWriter, body: ConfigUpdate, current: Config)
    modifies w
    ensures w.out == old(w.out) + DocText(UpdateEntries(body, current))
  {
    hide DocText, NatText, Yaml.ScalarLine, Yaml.Nested, Yaml.OpenLine;
    var update := if body.update.Some? then body.update.value else current.update;
    ghost var ls := UpdateLeaves(update);
    GroupText3(w.out, "update", ls[0], ls[1], ls[2]);
    w.NestedOpen("update");
    w.NestedScalar("enabled", BoolText(update.enabled));
    w.NestedScalar("auto", BoolText(update.auto));
    w.NestedScalar("check_interval", NatText(update.checkInterval));
  }

  lemma RenderedInPieces(body: ConfigUpdate, current: Config, version: Option<u64>)
    ensures Rendered(body, current, version) ==
            DocText(TuningEntries(body)) + DocText(GainEntries(body))
            + DocText(TimingEntries(body, current)) + DocText(BeaconEntries(body))
            + DocText(HttpEntries(body)) + DocText(MicrowavepropEntries(body, current, version))
            + DocText(UpdateEntries(body, current))
  {
    hide DocText, TuningEntries, GainEntries, TimingEntries, BeaconEntries, HttpEntries,
         MicrowavepropEntries, UpdateEntries;
    var p1, p2, p3 := TuningEntries(body), GainEntries(body), TimingEntries(body, current);
    var p4, p5 := BeaconEntries(body), HttpEntries(body);
    var p6, p7 := MicrowavepropEntries(body, current, version), UpdateEntries(body, current);
    DocTextAppend(p1, p2);
    DocTextAppend(p1 + p2, p3);
    DocTextAppend(p1 + p2 + p3, p4);
    DocTextAppend(p1 + p2 + p3 + p4, p5);
    DocTextAppend(p1 + p2 + p3 + p4 + p5, p6);
    DocTextAppend(p1 + p2 + p3 + p4 + p5 + p6, p7);
  }

  /** `build_yaml_from_update`: the document, written line by line. */
  method BuildYamlFromUpdate(body: ConfigUpdate, current: Config, configVersion: Option<u64>)
    returns (yaml: string)
    ensures yaml == Rendered(body, current, configVersion)
  {
    hide DocText, Rendered, TuningEntries, GainEntries, TimingEntries, BeaconEntries, HttpEntries,
         MicrowavepropEntries, UpdateEntries;
    RenderedInPieces(body, current, configVersion);
    var w := new Yaml.YamlWriter();
    ghost var empty := w.out;
    assert empty + DocText(TuningEntries(body)) == DocText(TuningEntries(body));
    WriteScalars(w, body, current);
    WriteBeaconAndHttp(w, body);
    WriteMicrowaveprop(w, body, current, configVersion);
    WriteUpdate(w, body, current);
    return w.out;
  }
}
