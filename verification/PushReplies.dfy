/**
 What `config_applied` says about a push, exactly, and what a push that brings
 nothing new leaves alone.
 */
module PushReplies {
  import opened Results
  import opened NodeConfig
  import opened ConfigText
  import opened ConfigStore
  import opened ConfigFields
  import opened ConfigListener
  import opened SyncConfigs

  /** Recording a version reports success exactly when there is a block, and the version is new and written or known. */
  lemma PersistedExactly(s: State, version: u64, fate: Fate)
    ensures var o := Persisted(s, version, fate);
            && (o.result <==> s.config.microwaveprop.Some? && (AppliedVersion(s.config) == version || fate.stop >= 4))
            && o.state.worker == s.worker && o.state.serving == s.serving
            && (s.config.microwaveprop.Some? ==>
                  o.state.config.microwaveprop == Some(s.config.microwaveprop.value.(configVersion := version)))
            && o.state.config.(microwaveprop := None) == s.config.(microwaveprop := None)
            && (fate.stop < 4 ==> o.state.disk == s.disk)
  {
    hide Rendered, ToUpdate;
  }

  /** Two contents that compare equal on the wire: field by field, where a NaN is equal to nothing. */
  predicate EqualOnTheWire(a: SyncConfig, b: SyncConfig) {
    && a.frequency == b.frequency && !a.frequency.NaN? && a.mode == b.mode && a.driver == b.driver
    && a.sampleRate == b.sampleRate && !a.sampleRate.NaN?
    && a.gain == b.gain && (a.gain.Some? ==> !a.gain.value.NaN?)
    && a.ppm == b.ppm && !a.ppm.NaN? && a.periodSeconds == b.periodSeconds
    && a.beacon == b.beacon && (a.beacon.Some? ==> !a.beacon.value.offsetHz.NaN? && !a.beacon.value.bandwidthHz.NaN?)
    && a.uploadEnabled == b.uploadEnabled && a.beaconId == b.beaconId && a.gridsquare == b.gridsquare
  }

  /**
   A push of a newer version with what the node already runs records the version
   and nothing else: neither the listener nor the worker is touched, nothing is
   bound, and memory has the version even if the disk does not get it.
   */
  lemma SameContentIsOnlyRecorded(s: State, p: PushFrame, fate: Fate)
    requires p.version > AppliedVersion(s.config) && EqualOnTheWire(p.config, FromConfig(s.config))
    ensures var o := Pushed(s, p, fate);
            && o.state.worker == s.worker && o.state.serving == s.serving
            && o.state.config == WithVersion(s.config, p.version) && (fate.stop < 4 ==> o.state.disk == s.disk)
            && (o.result <==> s.config.microwaveprop.Some? && fate.stop >= 4)
  {
    hide Rendered, ToUpdate, FromConfig;
    PersistedExactly(s, p.version, fate);
  }

  /** A push of a newer version with anything else is applied whole, with a fresh worker, or changes nothing. */
  lemma OtherContentIsApplied(s: State, p: PushFrame, fate: Fate)
    requires Acceptable(s.config)
    requires p.version > AppliedVersion(s.config) && !EqualOnTheWire(p.config, FromConfig(s.config))
    ensures var o := Pushed(s, p, fate);
            && (o.result <==> Taken(p.config).Some? && fate.stop >= 4)
            && (o.result ==>
                  && FromYaml(o.state.disk) == Success(o.state.config) && o.state.worker == o.state.config
                  && FromConfig(o.state.config) == Taken(p.config).value
                  && AppliedVersion(o.state.config) == p.version
                  && o.state.serving == s.serving && PreservedToken(o.state.config) == PreservedToken(s.config))
            && (!o.result ==> o.state == s)
  {
    hide Rendered, FromYaml, Acceptable, Taken, FromConfig;
    PushLands(s.config, p.config, p.version);
    AppliedExactlyWhen(s, ToConfigUpdate(p.config, s.config), Some(p.version), fate);
  }

  /** What a node reports is what it runs, field by field, and neither its token nor its address. */
  lemma ReportsShowTheConfig(c: Config)
    ensures var p := FromConfig(c);
            && p.frequency == c.frequency && p.mode == ModeName(c.mode) && p.driver == c.driver
            && p.sampleRate == c.sampleRate && p.gain == c.gain && p.ppm == c.ppm
            && p.periodSeconds == c.periodSeconds && p.beacon == c.beacon
            && (c.microwaveprop.Some? ==>
                  && p.uploadEnabled == c.microwaveprop.value.enabled && p.beaconId == c.microwaveprop.value.beaconId
                  && p.gridsquare == c.microwaveprop.value.gridsquare)
            && (c.microwaveprop.None? ==> !p.uploadEnabled && p.beaconId == "" && p.gridsquare == "")
  {
    hide ModeName;
  }

  lemma ReportsHideTheRest(c: Config, token: string, version: u64, http: HttpConfig, update: UpdateConfig)
    requires c.microwaveprop.Some?
    ensures var m := c.microwaveprop.value.(monitorToken := token, configVersion := version);
            FromConfig(c.(microwaveprop := Some(m), http := http, update := update)) == FromConfig(c)
  {
    hide ModeName;
  }

  /** Where every field of a push goes that is taken, whatever its mode, and what stays the node's own. */
  lemma PushedFieldsLand(s: State, p: PushFrame, fate: Fate)
    requires Acceptable(s.config) && p.version > AppliedVersion(s.config)
    requires !EqualOnTheWire(p.config, FromConfig(s.config)) && Pushed(s, p, fate).result
    ensures var c, q := Pushed(s, p, fate).state.config, p.config;
            && c.frequency == q.frequency && c.driver == q.driver && c.sampleRate == q.sampleRate
            && c.ppm == q.ppm && c.periodSeconds == q.periodSeconds
            && (q.gain.Some? ==> c.gain == q.gain) && (q.beacon.Some? ==> c.beacon == q.beacon)
            && c.http.bind == s.config.http.bind && c.update == s.config.update
            && c.microwaveprop.Some?
            && var m := c.microwaveprop.value;
               && m.enabled == q.uploadEnabled && m.beaconId == q.beaconId && m.gridsquare == q.gridsquare
               && m.configVersion == p.version
               && m.monitorToken == (if s.config.microwaveprop.Some? then s.config.microwaveprop.value.monitorToken
                                     else "")
  {
    hide Rendered, FromYaml, Acceptable, FromConfig, BodyFitsLines;
    FieldsAreTaken(ToConfigUpdate(p.config, s.config), s.config, Some(p.version));
  }

  /** A push that is not newer changes nothing and is not an error, whatever it says. */
  lemma OldPushIsIgnored(s: State, p: PushFrame, fate: Fate)
    requires p.version <= AppliedVersion(s.config)
    ensures Pushed(s, p, fate) == Outcome(s, true)
  {
    hide Rendered, FromConfig;
  }
}
