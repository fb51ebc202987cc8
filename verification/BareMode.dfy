/**
 The mode is the one word of a config update that is written without quotes,
 and it is written before anything has looked at it: what that lets through,
 and what no mode can change.
 */
module BareMode {
  import opened Results
  import opened Numbers
  import opened NodeConfig
  import opened ConfigText
  import opened YamlRoundTrip
  import opened Text
  import Yaml

  // ---------------- lines that read alike -------------------------------

  /** Where a document leaves the parser, given the line in its middle. */
  function Via(pre: string, line: string, post: string): Result<Yaml.Doc, Yaml.Error> {
    var before := ReadTo(pre);
    if before.Failure? then before
    else
      var n := 1 + |Lines(pre)|;
      var after := Yaml.AfterLine(before.value, line, n);
      if after.Failure? then after else Through(after.value, post, n + 1)
  }

  lemma ReadVia(pre: string, line: string, post: string)
    requires Terminated(pre) && NoNewline(line)
    ensures ReadTo(pre + (line + "\n") + post) == Via(pre, DropCr(line), post)
    ensures |Lines(pre + (line + "\n") + post)| == |Lines(pre)| + 1 + |Lines(post)|
  {
    hide Lines, Terminated, Through, Yaml.AfterLine, DropCr;
    var mid := line + "\n";
    assert Terminated(mid) by { EndsInNewline(line); }
    Regroup(pre, mid, post);
    LinesOfOne(line);
    LinesAppend(pre, mid + post);
    LinesAppend(mid, post);
    ThroughAppend(Yaml.EMPTY, pre, mid + post, 1);
    if ReadTo(pre).Success? {
      var d, n := ReadTo(pre).value, 1 + |Lines(pre)|;
      ThroughAppend(d, mid, post, n);
      ThroughOne(d, line, n);
    }
  }

  lemma EndsInNewline(line: string)
    ensures Terminated(line + "\n")
  {
  }

  /** Two lines with the same effect may stand for each other. */
  lemma AlikeLines(pre: string, a: string, b: string, post: string)
    requires Terminated(pre) && NoNewline(a) && NoNewline(b)
    requires forall d, n :: Yaml.AfterLine(d, DropCr(a), n) == Yaml.AfterLine(d, DropCr(b), n)
    ensures Yaml.Parsed(pre + (a + "\n") + post) == Yaml.Parsed(pre + (b + "\n") + post)
  {
    hide Lines, Terminated, Yaml.AfterLine, DropCr, NoNewline;
    ReadVia(pre, a, post);
    ReadVia(pre, b, post);
    var s, t := pre + (a + "\n") + post, pre + (b + "\n") + post;
    assert Yaml.AfterLines(Yaml.EMPTY, Lines(s), 1) == ReadTo(s);
    assert Yaml.AfterLines(Yaml.EMPTY, Lines(t), 1) == ReadTo(t);
  }

  // ---------------- a comment behind a word -----------------------------

  /** What may follow a bare word unseen: a space, a hash sign and the rest of the line. */
  function Commented(word: string, note: string): string {
    word + (" #" + note)
  }

  predicate IsNote(note: string) {
    NoNewline(note) && (note == "" || note[|note| - 1] != '\r')
  }

  lemma CommentIsCut(k: string, v: string, note: string)
    requires CleanKey(k) && CleanScalar(v)
    ensures Yaml.Uncommented(k + ": " + Commented(v, note)) == k + ": " + v + " "
  {
    var c := k + ": " + v;
    PlainAppend(k, ": ");
    PlainAppend(k + ": ", v);
    PlainAppend(c, " ");
    var tail := "#" + note;
    assert Yaml.CommentStart(tail, Yaml.Outside) == 0;
    CommentSkipsPlain(c + " ", tail);
    assert k + ": " + Commented(v, note) == c + " " + tail;
    assert (c + " " + tail)[..|c + " "|] == c + " ";
  }

  lemma SpacedSplit(k: string, v: string)
    requires CleanKey(k) && CleanScalar(v)
    ensures Yaml.SplitKv(k + ": " + v + " ") == Yaml.SplitKv(k + ": " + v)
  {
    assert v != "" && !IsSpace(v[0]) && (v + " ")[0] == v[0];
    assert IsSpace(' ');
    hide *;
    SplitAtColon(k, v);
    SplitAtColon(k, v + " ");
    TrimEndSnoc(v, ' ');
    Regroup(k + ": ", v, " ");
  }

  lemma SpacedLineReads(d: Yaml.Doc, k: string, v: string, n: nat)
    requires CleanKey(k) && CleanScalar(v)
    ensures Yaml.AfterTopLine(d, k + ": " + v + " ", n) == Yaml.AfterTopLine(d, k + ": " + v, n)
  {
    SpacedSplit(k, v);
    hide Yaml.SplitKv, Yaml.Unquoted, Yaml.Closed;
  }

  /** A comment behind a bare value is not part of the value. */
  lemma CommentHasNoEffect(d: Yaml.Doc, k: string, v: string, note: string, n: nat)
    requires CleanKey(k) && CleanScalar(v)
    ensures Yaml.AfterLine(d, k + ": " + Commented(v, note), n) == Yaml.AfterLine(d, k + ": " + v, n)
  {
    var c := k + ": " + v;
    BareReads(k, v);
    SolidTopLine(d, c, n);
    CommentIsCut(k, v, note);
    var spaced := c + " ";
    TrimSolid(spaced);
    SpacedLineReads(d, k, v, n);
    hide Yaml.AfterTopLine, Yaml.AfterNestedLine, Yaml.Uncommented, TrimStart, Trim, ByteLen, Commented;
  }

  // ---------------- the mode in a document ------------------------------

  function ModeLine(mode: string): string {
    "mode: " + mode
  }

  function BeforeMode(body: ConfigUpdate): string {
    EntryText(Single(Bare("frequency", Show(body.frequency))))
  }

  /** The lines behind the mode's. */
  function AfterMode(body: ConfigUpdate, current: Config, version: Option<u64>): string {
    DocText(Document(body, current, version)[2..])
  }

  /** The document of an update around the line its mode is written on. */
  lemma ModeLineInDocument(body: ConfigUpdate, current: Config, version: Option<u64>, mode: string)
    ensures Rendered(body.(mode := mode), current, version) ==
            BeforeMode(body) + (ModeLine(mode) + "\n") + AfterMode(body, current, version)
    ensures Terminated(BeforeMode(body))
  {
    hide Show, NatText, DocText;
    var with := body.(mode := mode);
    OthersStay(body, current, version, mode);
    hide GainEntries, TimingEntries, BeaconEntries, HttpEntries, MicrowavepropEntries, UpdateEntries;
    var es, all := Document(with, current, version), Document(body, current, version);
    assert es[2..] == all[2..];
    var first, second := Single(Bare("frequency", Show(body.frequency))), Single(Bare("mode", mode));
    assert es == [first] + ([second] + es[2..]);
    DocTextAppend([first], [second] + es[2..]);
    DocTextAppend([second], es[2..]);
    DocTextOne(first);
    DocTextOne(second);
    assert EntryText(second) == ModeLine(mode) + "\n";
    Regroup(EntryText(first), EntryText(second), DocText(es[2..]));
  }

  lemma OthersStay(body: ConfigUpdate, current: Config, version: Option<u64>, mode: string)
    ensures var with := body.(mode := mode);
            && GainEntries(with) == GainEntries(body) && TimingEntries(with, current) == TimingEntries(body, current)
            && BeaconEntries(with) == BeaconEntries(body) && HttpEntries(with) == HttpEntries(body)
            && MicrowavepropEntries(with, current, version) == MicrowavepropEntries(body, current, version)
            && UpdateEntries(with, current) == UpdateEntries(body, current)
  {
    hide Show, NatText;
  }

  lemma ModeLinesAreLines(mode: string, note: string)
    requires CleanScalar(mode) && IsNote(note)
    ensures var a, b := ModeLine(Commented(mode, note)), ModeLine(mode);
            NoNewline(a) && NoNewline(b) && DropCr(a) == a && DropCr(b) == b
  {
    var a, b := ModeLine(Commented(mode, note)), ModeLine(mode);
    assert b[|b| - 1] == mode[|mode| - 1];
    assert a[|a| - 1] == if note == "" then '#' else note[|note| - 1];
  }

  lemma ModeLinesAlike(mode: string, note: string)
    requires CleanScalar(mode) && IsNote(note)
    ensures var a, b := ModeLine(Commented(mode, note)), ModeLine(mode);
            && NoNewline(a) && NoNewline(b)
            && forall d, n :: Yaml.AfterLine(d, DropCr(a), n) == Yaml.AfterLine(d, DropCr(b), n)
  {
    var a, b := ModeLine(Commented(mode, note)), ModeLine(mode);
    assert "mode: " == "mode" + ": ";
    assert CleanKey("mode");
    ModeLinesAreLines(mode, note);
    hide Yaml.AfterLine, CleanScalar, CleanKey, NoNewline, DropCr, Commented, IsNote;
    forall d, n ensures Yaml.AfterLine(d, a, n) == Yaml.AfterLine(d, b, n) {
      CommentHasNoEffect(d, "mode", mode, note, n);
    }
  }

  /** A mode with a comment behind it is read as the mode alone. */
  lemma CommentedModeReads(body: ConfigUpdate, current: Config, version: Option<u64>, note: string)
    requires CleanScalar(body.mode) && IsNote(note)
    ensures FromYaml(Rendered(body.(mode := Commented(body.mode, note)), current, version)) ==
            FromYaml(Rendered(body, current, version))
  {
    hide Rendered, Yaml.Parsed, FromMap, AfterMode, BeforeMode, DropCr, Terminated, NoNewline, Yaml.AfterLine;
    var a, b := ModeLine(Commented(body.mode, note)), ModeLine(body.mode);
    ModeLineInDocument(body, current, version, Commented(body.mode, note));
    ModeLineInDocument(body, current, version, body.mode);
    assert body.(mode := body.mode) == body;
    ModeLinesAlike(body.mode, note);
    AlikeLines(BeforeMode(body), a, b, AfterMode(body, current, version));
  }

  // ---------------- what no mode can change -----------------------------

  /** The same update with a mode that is a mode's name. */
  function Plainly(body: ConfigUpdate): ConfigUpdate {
    body.(mode := "usb")
  }

  function EntriesAfterMode(body: ConfigUpdate, current: Config, version: Option<u64>): seq<Entry> {
    Document(body, current, version)[2..]
  }

  lemma SameAfterMode(body: ConfigUpdate, current: Config, version: Option<u64>)
    ensures EntriesAfterMode(body, current, version) == Document(Plainly(body), current, version)[2..]
    ensures BodyFitsLines(body, current) <==> BodyFitsLines(Plainly(body), current)
    ensures DocText(EntriesAfterMode(body, current, version)) == AfterMode(body, current, version)
  {
    OthersStay(body, current, version, "usb");
    hide GainEntries, TimingEntries, BeaconEntries, HttpEntries, MicrowavepropEntries, UpdateEntries, DocText, Show,
         Text.NoNewline;
    assert Document(body, current, version)[2..] == Document(Plainly(body), current, version)[2..];
  }

  /** The entries behind the first two, when those are fine. */
  lemma EndingOf(all: seq<Entry>)
    requires |all| >= 2 && AllClean(all) && DistinctEntries(all) && OneLine(all[0]) && OneLine(all[1])
    ensures var es := all[2..];
            CleanDoc(es) && DistinctEntries(es) && (AllOneLine(all) <==> forall e | e in es :: OneLine(e))
  {
    hide CleanEntry, OneLine, EntryKey, DistinctLeaves;
    var es := all[2..];
    assert forall i | 0 <= i < |es| :: es[i] == all[i + 2];
    if AllOneLine(all) {
      forall e | e in es ensures OneLine(e) {
        var i :| 0 <= i < |es| && es[i] == e;
        assert OneLine(all[i + 2]);
      }
    } else {
      var i :| 0 <= i < |all| && !OneLine(all[i]);
      assert es[i - 2] in es;
    }
  }

  lemma AfterModeIsClean(body: ConfigUpdate, current: Config, version: Option<u64>)
    ensures var es := EntriesAfterMode(body, current, version);
            && CleanDoc(es) && DistinctEntries(es) && DocText(es) == AfterMode(body, current, version)
            && (BodyFitsLines(body, current) <==> forall e | e in es :: OneLine(e))
  {
    hide *;
    KnownIsClean();
    PlainlyIs(body);
    SameAfterMode(body, current, version);
    DocumentIsClean(Plainly(body), current, version);
    DocumentIsDistinct(Plainly(body), current, version);
    FirstTwo(Plainly(body), current, version);
    EndingOf(Document(Plainly(body), current, version));
  }

  lemma PlainlyIs(body: ConfigUpdate)
    ensures Plainly(body).mode == "usb"
  {
  }

  lemma KnownIsClean()
    ensures CleanScalar("usb")
  {
  }

  lemma FirstTwo(body: ConfigUpdate, current: Config, version: Option<u64>)
    requires CleanScalar(body.mode)
    ensures var es := Document(body, current, version);
            && |es| >= 2 && es[0] == Single(Bare("frequency", Show(body.frequency)))
            && es[1] == Single(Bare("mode", body.mode))
            && OneLine(es[0]) && OneLine(es[1])
  {
    ShowIsClean(body.frequency);
    CleanFitsLine(Show(body.frequency));
    CleanFitsLine(body.mode);
    hide Show, NatText, CleanScalar;
  }

  /** The lines up to and with the mode's, however many its text makes of them. */
  function Beginning(body: ConfigUpdate): string {
    BeforeMode(body) + (ModeLine(body.mode) + "\n")
  }

  lemma RenderedEnds(body: ConfigUpdate, current: Config, version: Option<u64>)
    ensures Rendered(body, current, version) == Beginning(body) + AfterMode(body, current, version)
    ensures Terminated(Beginning(body))
  {
    hide Rendered, AfterMode, BeforeMode;
    ModeLineInDocument(body, current, version, body.mode);
    assert body.(mode := body.mode) == body;
    EndsInNewline(ModeLine(body.mode));
    TerminatedAppend(BeforeMode(body), ModeLine(body.mode) + "\n");
  }

  /** The first line is read before the mode can do anything about it. */
  lemma FrequencyIsRead(body: ConfigUpdate)
    requires ReadTo(Beginning(body)).Success?
    ensures HasScalar(ReadTo(Beginning(body)).value.top, "frequency", Show(body.frequency))
  {
    var l := Bare("frequency", Show(body.frequency));
    var first, rest := LeafLine(l), ModeLine(body.mode) + "\n";
    assert BeforeMode(body) == first;
    ShowIsClean(body.frequency);
    CleanFitsLine(Show(body.frequency));
    CleanScalarKeys();
    LeafTerminated(l);
    hide Show, CleanKey, CleanScalar, NoNewline, Lines, Terminated, LeafLine, ModeLine, BeforeMode, Yaml.AfterLine;
    ThroughAppend(Yaml.EMPTY, first, rest, 1);
    SingleReads(Yaml.EMPTY, l, 1);
    var d, n := Through(Yaml.EMPTY, first, 1).value, 1 + |Lines(first)|;
    AfterLinesKeep(d, Lines(rest), n, Yaml.Block("", map[]));
  }

  /** Whatever the mode, every other key the writer wrote is in the mapping with the value it wrote. */
  lemma OtherKeysAreRead(body: ConfigUpdate, current: Config, version: Option<u64>)
    requires Yaml.Parsed(Rendered(body, current, version)).Success?
    ensures BodyFitsLines(body, current)
    ensures var m, plain := Yaml.Parsed(Rendered(body, current, version)).value,
                            Meaning(Document(Plainly(body), current, version));
            forall k | k in plain && k != "mode" :: k in m && m[k] == plain[k]
  {
    hide Rendered, Yaml.Parsed, ReadTo, Beginning, AfterMode, BodyFitsLines, EntriesAfterMode, Meaning, DocText,
         CleanDoc, DistinctEntries, OneLine, Document, Show, Terminated;
    var es, pre := EntriesAfterMode(body, current, version), Beginning(body);
    RenderedEnds(body, current, version);
    AfterModeIsClean(body, current, version);
    if !BodyFitsLines(body, current) {
      BrokenEndingFails(pre, es);
    }
    EndingIsRead(pre, es);
    FrequencyIsRead(body);
    PlainMeaning(body, current, version);
  }

  lemma PlainMeaning(body: ConfigUpdate, current: Config, version: Option<u64>)
    ensures Meaning(Document(Plainly(body), current, version)) ==
            map["frequency" := Yaml.Scalar(Show(body.frequency))] + map["mode" := Yaml.Scalar("usb")]
            + Meaning(EntriesAfterMode(body, current, version))
  {
    var all := Document(Plainly(body), current, version);
    KnownIsClean();
    SameAfterMode(body, current, version);
    FirstTwo(Plainly(body), current, version);
    hide Document, EntriesAfterMode, Show, DocText, BodyFitsLines, OneLine;
    assert all[1..][1..] == all[2..];
    MapJoin(map["frequency" := Yaml.Scalar(Show(body.frequency))], map["mode" := Yaml.Scalar("usb")],
            Meaning(all[2..]));
  }

  lemma ScalarKeysWritten(body: ConfigUpdate, current: Config, version: Option<u64>)
    ensures var m := Meaning(Document(body, current, version));
            && "frequency" in m && "driver" in m && "sample_rate" in m && "ppm" in m && "period_seconds" in m
            && (body.gain.Some? ==> "gain" in m)
  {
    hide Within, Meaning, Document, Show, NatText, Rank;
    PiecesWithin(body, current, version);
    ScalarRanks();
    WithinHas(TuningEntries(body), 0, 4, 0);
    WithinHas(TuningEntries(body), 0, 4, 2);
    WithinHas(TuningEntries(body), 0, 4, 3);
    WithinHas(TimingEntries(body, current), 5, 7, 0);
    WithinHas(TimingEntries(body, current), 5, 7, 1);
    if body.gain.Some? { WithinHas(GainEntries(body), 4, 5, 0); }
    Located(body, current, version, "frequency");
    Located(body, current, version, "driver");
    Located(body, current, version, "sample_rate");
    Located(body, current, version, "ppm");
    Located(body, current, version, "period_seconds");
    Located(body, current, version, "gain");
  }

  lemma BlockKeysWritten(body: ConfigUpdate, current: Config, version: Option<u64>)
    ensures var m := Meaning(Document(body, current, version));
            && "http" in m && "update" in m && (body.beacon.Some? ==> "beacon" in m)
            && (body.microwaveprop.Some? ==> "microwaveprop" in m)
  {
    hide Within, Meaning, Document, Rank, BeaconLeaves, MicrowavepropLeaves, UpdateLeaves, UpdateOf, BindOf;
    PiecesWithin(body, current, version);
    BlockRanks();
    WithinHas(HttpEntries(body), 8, 9, 0);
    WithinHas(UpdateEntries(body, current), 10, 11, 0);
    if body.beacon.Some? { WithinHas(BeaconEntries(body), 7, 8, 0); }
    if body.microwaveprop.Some? { WithinHas(MicrowavepropEntries(body, current, version), 9, 10, 0); }
    Located(body, current, version, "http");
    Located(body, current, version, "update");
    Located(body, current, version, "beacon");
    Located(body, current, version, "microwaveprop");
  }

  /** The readers look at one key each. */
  lemma ReadersAgree(m: Yaml.Mapping, p: Yaml.Mapping)
    ensures Agree(m, p, "frequency") ==> RequiredF64At(m, "frequency") == RequiredF64At(p, "frequency")
    ensures Agree(m, p, "driver") ==> TextAt(m, "driver", "rtlsdr") == TextAt(p, "driver", "rtlsdr")
    ensures Agree(m, p, "sample_rate") ==>
              F64At(m, "sample_rate", Whole(250000)) == F64At(p, "sample_rate", Whole(250000))
    ensures Agree(m, p, "gain") ==> GainAt(m) == GainAt(p)
    ensures Agree(m, p, "ppm") ==> F64At(m, "ppm", Whole(0)) == F64At(p, "ppm", Whole(0))
    ensures Agree(m, p, "period_seconds") ==> U32At(m, "period_seconds", 60) == U32At(p, "period_seconds", 60)
    ensures Agree(m, p, "beacon") ==> BeaconAt(m) == BeaconAt(p)
    ensures Agree(m, p, "http") ==> HttpAt(m) == HttpAt(p)
    ensures Agree(m, p, "microwaveprop") ==> MicrowavepropAt(m) == MicrowavepropAt(p)
    ensures Agree(m, p, "update") ==> UpdateAt(m) == UpdateAt(p)
  {
    hide Read, ParseUnsigned;
  }

  /** Whatever the mode, everything the update says is read as meant. */
  lemma WrittenIsRead(body: ConfigUpdate, current: Config, version: Option<u64>)
    requires Yaml.Parsed(Rendered(body, current, version)).Success?
    ensures var m, meant := Yaml.Parsed(Rendered(body, current, version)).value, Meant(body, current, version, Usb);
            && RequiredF64At(m, "frequency") == Success(meant.frequency)
            && TextAt(m, "driver", "rtlsdr") == Success(meant.driver)
            && F64At(m, "sample_rate", Whole(250000)) == Success(meant.sampleRate)
            && F64At(m, "ppm", Whole(0)) == Success(meant.ppm)
            && U32At(m, "period_seconds", 60) == Success(meant.periodSeconds)
            && HttpAt(m) == Success(meant.http) && UpdateAt(m) == Success(meant.update)
            && (body.gain.Some? ==> GainAt(m) == Success(body.gain))
            && (body.beacon.Some? ==> BeaconAt(m) == Success(body.beacon))
            && (body.microwaveprop.Some? ==> MicrowavepropAt(m) == Success(meant.microwaveprop))
  {
    hide Rendered, Yaml.Parsed, Meaning, Document, BodyFitsLines, RequiredF64At, RequiredAt, TextAt, F64At, GainAt,
         U32At, BeaconAt, HttpAt, MicrowavepropAt, UpdateAt, BindOf, UpdateOf, TokenOf, VersionOf;
    OtherKeysAreRead(body, current, version);
    var with := Plainly(body);
    var m, p := Yaml.Parsed(Rendered(body, current, version)).value, Meaning(Document(with, current, version));
    ScalarKeysWritten(with, current, version);
    BlockKeysWritten(with, current, version);
    ReadersAgree(m, p);
    TuningRead(with, current, version);
    TimingRead(with, current, version);
    BeaconRead(with, current, version);
    HttpRead(with, current, version);
    MicrowavepropRead(with, current, version);
    UpdateRead(with, current, version);
    PlainlyMeans(body, current, version);
  }

  /** As the update means it, but for the mode and for what the update leaves out. */
  predicate AsMeant(c: Config, body: ConfigUpdate, current: Config, version: Option<u64>) {
    var meant := Meant(body, current, version, c.mode);
    && c == meant.(gain := c.gain, beacon := c.beacon, microwaveprop := c.microwaveprop)
    && (body.gain.Some? ==> c.gain == meant.gain)
    && (body.beacon.Some? ==> c.beacon == meant.beacon)
    && (body.microwaveprop.Some? ==> c.microwaveprop == meant.microwaveprop)
  }

  /**
   Whatever text stands for the mode, newlines and all: an update that is taken
   is taken as meant in everything it says. The frequency is read first, every
   other value stands behind the mode, and a second one for its key is refused.
   What the update leaves out the mode can still supply.
   */
  lemma AnyModeReads(body: ConfigUpdate, current: Config, version: Option<u64>)
    requires FromYaml(Rendered(body, current, version)).Success?
    ensures BodyFitsLines(body, current)
    ensures AsMeant(FromYaml(Rendered(body, current, version)).value, body, current, version)
  {
    hide Rendered, Yaml.Parsed, BodyFitsLines, RequiredF64At, RequiredAt, TextAt, F64At, GainAt, U32At, BeaconAt,
         HttpAt, MicrowavepropAt, UpdateAt, ParseMode, BrokenRule, BindOf, UpdateOf, TokenOf, VersionOf;
    FitsWhenTaken(body, current, version);
    WrittenIsRead(body, current, version);
  }

  lemma PlainlyMeans(body: ConfigUpdate, current: Config, version: Option<u64>)
    ensures forall mode :: Meant(Plainly(body), current, version, mode) == Meant(body, current, version, mode)
    ensures BindOf(Plainly(body)) == BindOf(body) && UpdateOf(Plainly(body), current) == UpdateOf(body, current)
  {
  }

  // ---------------- what a mode can supply ------------------------------

  /** A mode with the lines of a whole entry behind it. */
  function WithLines(mode: string, e: Entry): string {
    mode + ("\n" + EntryText(e)[..|EntryText(e)| - 1])
  }

  lemma EntryTextEnds(e: Entry)
    ensures EntryText(e) != "" && EntryText(e)[..|EntryText(e)| - 1] + "\n" == EntryText(e)
  {
    EntryTerminated(e);
    EntryTextIsSome(e);
    var t := EntryText(e);
    assert t == t[..|t| - 1] + [t[|t| - 1]];
  }

  lemma EntryTextIsSome(e: Entry)
    ensures EntryText(e) != ""
  {
  }

  function Inserted(all: seq<Entry>, e: Entry): seq<Entry>
    requires |all| >= 2
  {
    all[..2] + ([e] + all[2..])
  }

  lemma InsertedIsDistinct(all: seq<Entry>, e: Entry)
    requires |all| >= 2 && DistinctEntries(all) && (e.Group? ==> DistinctLeaves(e.leaves))
    requires forall x | x in all :: EntryKey(x) != EntryKey(e)
    ensures DistinctEntries(Inserted(all, e))
  {
    hide EntryKey, DistinctLeaves;
    var es := Inserted(all, e);
    forall i, j | 0 <= i < j < |es| ensures EntryKey(es[i]) != EntryKey(es[j]) {
      assert i != 2 ==> es[i] == all[if i < 2 then i else i - 1];
      assert j != 2 ==> es[j] == all[if j < 2 then j else j - 1];
    }
  }

  lemma InsertedMeans(all: seq<Entry>, e: Entry)
    requires |all| >= 2 && forall x | x in all :: EntryKey(x) != EntryKey(e)
    ensures Meaning(Inserted(all, e)) == Meaning(all)[EntryKey(e) := EntryValue(e)]
  {
    var a, b := all[..2], all[2..];
    assert all == a + b;
    assert ([e] + b)[1..] == b;
    assert Meaning([e] + b) == map[EntryKey(e) := EntryValue(e)] + Meaning(b);
    assert forall x | x in b :: x in all;
    MeaningLacks(b, EntryKey(e));
    hide *;
    MeaningAppend(a, b);
    MeaningAppend(a, [e] + b);
    MapMiddle(Meaning(a), EntryKey(e), EntryValue(e), Meaning(b));
    InsertedIs(all, e);
  }

  lemma InsertedIs(all: seq<Entry>, e: Entry)
    requires |all| >= 2
    ensures Inserted(all, e) == all[..2] + ([e] + all[2..])
  {
  }

  lemma MapMiddle<K, V>(a: map<K, V>, k: K, v: V, b: map<K, V>)
    requires k !in b
    ensures a + (map[k := v] + b) == (a + b)[k := v]
  {
  }

  /** The injected lines make the document the one with the entry in it. */
  lemma InjectedText(body: ConfigUpdate, current: Config, version: Option<u64>, e: Entry)
    requires |Document(body, current, version)| >= 2
    ensures Rendered(body.(mode := WithLines(body.mode, e)), current, version) ==
            DocText(Inserted(Document(body, current, version), e))
  {
    var all := Document(body, current, version);
    var first, second := Single(Bare("frequency", Show(body.frequency))), Single(Bare("mode", body.mode));
    ModeLineInDocument(body, current, version, WithLines(body.mode, e));
    EntryTextEnds(e);
    var tail := DocText(all[2..]);
    assert all[..2] == [first] + [second] by {
      hide Show, NatText;
    }
    hide Document, Show, Rendered;
    InjectedLine(body.mode, e);
    DocTextAppend(all[..2], [e] + all[2..]);
    DocTextAppend([first], [second]);
    DocTextAppend([e], all[2..]);
    DocTextOne(first);
    DocTextOne(second);
    DocTextOne(e);
    Regroup(BeforeMode(body), EntryText(second), EntryText(e));
    Regroup(BeforeMode(body) + EntryText(second), EntryText(e), tail);
  }

  lemma InjectedLine(mode: string, e: Entry)
    ensures ModeLine(WithLines(mode, e)) + "\n" == EntryText(Single(Bare("mode", mode))) + EntryText(e)
  {
    EntryTextEnds(e);
    var head := EntryText(e)[..|EntryText(e)| - 1];
    assert EntryText(Single(Bare("mode", mode))) == "mode: " + mode + "\n";
    assert "mode: " + (mode + ("\n" + head)) + "\n" == "mode: " + mode + "\n" + (head + "\n");
  }

  /** An entry the update does not write itself is read as if it did. */
  lemma InjectedEntryReads(body: ConfigUpdate, current: Config, version: Option<u64>, e: Entry)
    requires CleanScalar(body.mode) && BodyFitsLines(body, current)
    requires CleanEntry(e) && OneLine(e) && (e.Group? ==> DistinctLeaves(e.leaves))
    requires EntryKey(e) !in Meaning(Document(body, current, version))
    ensures Yaml.Parsed(Rendered(body.(mode := WithLines(body.mode, e)), current, version)) ==
            Success(Meaning(Document(body, current, version))[EntryKey(e) := EntryValue(e)])
  {
    hide *;
    var all := Document(body, current, version);
    FirstTwo(body, current, version);
    DocumentIsClean(body, current, version);
    DocumentIsDistinct(body, current, version);
    InjectedText(body, current, version, e);
    KeyIsNew(all, EntryKey(e));
    InsertedIsDistinct(all, e);
    InsertedMeans(all, e);
    InsertedIsClean(all, e);
    DocumentRoundTrip(Inserted(all, e));
  }

  lemma KeyIsNew(all: seq<Entry>, k: string)
    requires DistinctEntries(all) && k !in Meaning(all)
    ensures forall x | x in all :: EntryKey(x) != k
  {
    hide Meaning, EntryKey, EntryValue, DistinctLeaves;
    forall x | x in all ensures EntryKey(x) != k {
      var i :| 0 <= i < |all| && all[i] == x;
      MeaningHas(all, i);
    }
  }

  lemma InsertedIsClean(all: seq<Entry>, e: Entry)
    requires |all| >= 2 && AllClean(all) && AllOneLine(all) && CleanEntry(e) && OneLine(e)
    ensures CleanDoc(Inserted(all, e)) && forall x | x in Inserted(all, e) :: OneLine(x)
  {
    hide CleanEntry, OneLine;
    var es := Inserted(all, e);
    forall x | x in es ensures CleanEntry(x) && OneLine(x) {
      var i :| 0 <= i < |es| && es[i] == x;
      assert i != 2 ==> x == all[if i < 2 then i else i - 1];
    }
  }

  // ---------------- a block the update does not have --------------------

  /** A `microwaveprop` block as short as it can be. */
  function Block(token: string, version: u64): Entry {
    Group("microwaveprop", [Bare("monitor_token", token), Bare("config_version", NatText(version))])
  }

  lemma BlockIsClean(token: string, version: u64)
    requires CleanScalar(token)
    ensures var e := Block(token, version); CleanEntry(e) && OneLine(e) && DistinctLeaves(e.leaves)
  {
    CleanBlockKeys();
    CleanLeafKeys();
    NatTextIsClean(version);
    CleanFitsLine(token);
    CleanFitsLine(NatText(version));
    hide CleanKey, CleanScalar, NatText, NoNewline;
  }

  lemma BlockReads(token: string, version: u64, m: Yaml.Mapping)
    requires "microwaveprop" in m && m["microwaveprop"] == EntryValue(Block(token, version))
    ensures MicrowavepropAt(m) == Success(Some(MicrowavepropConfig(true, token, "", "", version)))
  {
    var ls := Block(token, version).leaves;
    var b := LeafMap(ls);
    assert DistinctLeaves(ls);
    hide NatText, LeafMap;
    LeafMapHas(ls, 0);
    LeafMapHas(ls, 1);
    LeafMapLacks(ls, "enabled");
    LeafMapLacks(ls, "beacon_id");
    LeafMapLacks(ls, "gridsquare");
    NatReads(b, "config_version", version);
    ScalarsRead(b, "monitor_token", "");
    hide U64At, ParseUnsigned;
    assert HasScalar(b, "monitor_token", token);
  }

  lemma NoBlockWritten(body: ConfigUpdate, current: Config, version: Option<u64>)
    requires body.microwaveprop.None?
    ensures "microwaveprop" !in Meaning(Document(body, current, version))
  {
    hide Document, Rank;
    BlockRanks();
    Located(body, current, version, "microwaveprop");
  }

  /**
   An update that leaves the `microwaveprop` block out and would be taken is
   also taken with a block's lines behind its mode, and then the node has the
   token and the version written there, whatever they are.
   */
  lemma InjectedVersionIsTaken(body: ConfigUpdate, current: Config, token: string, version: u64)
    requires CleanScalar(body.mode) && body.microwaveprop.None? && CleanScalar(token)
    requires FromYaml(Rendered(body, current, None)).Success?
    ensures var plain := FromYaml(Rendered(body, current, None)).value;
            FromYaml(Rendered(body.(mode := WithLines(body.mode, Block(token, version))), current, None)) ==
            Success(plain.(microwaveprop := Some(MicrowavepropConfig(true, token, "", "", version))))
  {
    hide Rendered, Yaml.Parsed, Meaning, Document, BodyFitsLines, RequiredF64At, RequiredAt, TextAt, F64At, GainAt,
         U32At, BeaconAt, HttpAt, MicrowavepropAt, UpdateAt, ParseMode, BrokenRule, BindOf, UpdateOf, TokenOf,
         VersionOf, Block, DistinctLeaves, CleanScalar, CleanEntry, OneLine, EntryValue, WithLines;
    RenderedUpdateReads(body, current, None);
    BlockIsClean(token, version);
    BlockIsGroup(token, version);
    NoBlockWritten(body, current, None);
    var e := Block(token, version);
    InjectedEntryReads(body, current, None, e);
    var m := Meaning(Document(body, current, None));
    var m' := m["microwaveprop" := EntryValue(e)];
    BlockReads(token, version, m');
    DocumentReads(body, current, None);
    ReadersAgree(m', m);
    BlockBreaksNoRule(FromMap(m).value, token, version);
    assert RequiredAt(m', "mode") == RequiredAt(m, "mode") by { SameRequired(m', m, "mode"); }
  }

  lemma SameRequired(m: Yaml.Mapping, p: Yaml.Mapping, k: string)
    ensures Agree(m, p, k) ==> RequiredAt(m, k) == RequiredAt(p, k)
  {
  }

  lemma BlockIsGroup(token: string, version: u64)
    ensures Block(token, version).Group? && EntryKey(Block(token, version)) == "microwaveprop"
  {
  }

  lemma BlockBreaksNoRule(c: Config, token: string, version: u64)
    requires BrokenRule(c).None?
    ensures BrokenRule(c.(microwaveprop := Some(MicrowavepropConfig(true, token, "", "", version)))).None?
  {
    hide Value, BrokenBeaconRule;
  }

  // ---------------- the same update on another node ---------------------

  /** Two updates that ask for the same, except for what each node keeps to itself. */
  predicate SameRequest(a: ConfigUpdate, b: ConfigUpdate) {
    a == b.(http := a.http) && a.periodSeconds.Some? && a.microwaveprop.Some?
  }

  predicate LocalKey(k: string) {
    k == "http" || k == "microwaveprop" || k == "update"
  }

  /** Entry for entry the same key, and the same entry unless it is one of the node's own. */
  predicate Matching(x: seq<Entry>, y: seq<Entry>) {
    |x| == |y| && forall i | 0 <= i < |x| ::
      EntryKey(x[i]) == EntryKey(y[i]) && (x[i] == y[i] || LocalKey(EntryKey(x[i])))
  }

  lemma MatchingAppend(x: seq<Entry>, y: seq<Entry>, u: seq<Entry>, v: seq<Entry>)
    requires Matching(x, y) && Matching(u, v)
    ensures Matching(x + u, y + v)
  {
    hide EntryKey, LocalKey;
  }

  lemma {:induction false} MatchingMeans(x: seq<Entry>, y: seq<Entry>, k: string)
    requires Matching(x, y)
    ensures k in Meaning(x) <==> k in Meaning(y)
    ensures !LocalKey(k) ==> Agree(Meaning(x), Meaning(y), k)
    decreases |x|
  {
    hide EntryKey, EntryValue, LocalKey;
    if x != [] {
      MatchingMeans(x[1..], y[1..], k);
    }
  }

  lemma BlocksMatch(a: ConfigUpdate, x: Config, v: Option<u64>, b: ConfigUpdate, y: Config, w: Option<u64>)
    requires SameRequest(a, b)
    ensures Matching(HttpEntries(a), HttpEntries(b))
    ensures Matching(MicrowavepropEntries(a, x, v), MicrowavepropEntries(b, y, w))
    ensures Matching(UpdateEntries(a, x), UpdateEntries(b, y))
    ensures TuningEntries(a) == TuningEntries(b) && GainEntries(a) == GainEntries(b)
    ensures TimingEntries(a, x) == TimingEntries(b, y) && BeaconEntries(a) == BeaconEntries(b)
  {
    hide Show, NatText, MicrowavepropLeaves, UpdateLeaves, UpdateOf, BindOf;
  }

  lemma SameMatches(x: seq<Entry>)
    ensures Matching(x, x)
  {
    hide EntryKey, LocalKey;
  }

  lemma DocumentsMatch(a: ConfigUpdate, x: Config, v: Option<u64>, b: ConfigUpdate, y: Config, w: Option<u64>)
    requires SameRequest(a, b)
    ensures Matching(Document(a, x, v), Document(b, y, w))
  {
    BlocksMatch(a, x, v, b, y, w);
    hide Matching, TuningEntries, GainEntries, TimingEntries, BeaconEntries, HttpEntries, MicrowavepropEntries,
         UpdateEntries, SameRequest;
    var head := TuningEntries(a) + GainEntries(a) + TimingEntries(a, x) + BeaconEntries(a);
    SameMatches(head);
    MatchingAppend(head, head, HttpEntries(a), HttpEntries(b));
    MatchingAppend(head + HttpEntries(a), head + HttpEntries(b),
                   MicrowavepropEntries(a, x, v), MicrowavepropEntries(b, y, w));
    MatchingAppend(head + HttpEntries(a) + MicrowavepropEntries(a, x, v),
                   head + HttpEntries(b) + MicrowavepropEntries(b, y, w), UpdateEntries(a, x), UpdateEntries(b, y));
  }

  lemma EndingsMatch(a: ConfigUpdate, x: Config, v: Option<u64>, b: ConfigUpdate, y: Config, w: Option<u64>)
    requires SameRequest(a, b)
    ensures Matching(EntriesAfterMode(a, x, v), EntriesAfterMode(b, y, w))
    ensures Beginning(a) == Beginning(b)
  {
    DocumentsMatch(a, x, v, b, y, w);
    AtLeastTwo(a, x, v);
    AtLeastTwo(b, y, w);
    hide Document, EntryKey, LocalKey, Show;
    var p, q := Document(a, x, v), Document(b, y, w);
    assert forall i | 0 <= i < |p| - 2 :: p[2..][i] == p[i + 2] && q[2..][i] == q[i + 2];
  }

  lemma AtLeastTwo(body: ConfigUpdate, current: Config, version: Option<u64>)
    ensures |Document(body, current, version)| >= 2
  {
    hide Show, NatText;
  }

  /** A document that reads on one node reads on another, as the same mapping but for the node's own blocks. */
  lemma ParsesElsewhere(a: ConfigUpdate, x: Config, v: Option<u64>, b: ConfigUpdate, y: Config, w: Option<u64>)
    requires SameRequest(a, b) && BodyFitsLines(b, y) && Yaml.Parsed(Rendered(a, x, v)).Success?
    ensures Yaml.Parsed(Rendered(b, y, w)).Success?
    ensures forall k | !LocalKey(k) ::
              Agree(Yaml.Parsed(Rendered(a, x, v)).value, Yaml.Parsed(Rendered(b, y, w)).value, k)
  {
    hide *;
    var pre, ours, theirs := Beginning(a), EntriesAfterMode(a, x, v), EntriesAfterMode(b, y, w);
    RenderedEnds(a, x, v);
    RenderedEnds(b, y, w);
    EndingsMatch(a, x, v, b, y, w);
    AfterModeIsClean(a, x, v);
    AfterModeIsClean(b, y, w);
    FitsWhenTaken(a, x, v);
    EndingIsRead(pre, ours);
    EndingReads(pre, theirs, ours);
    MappingsAgree(Flat(ReadTo(pre).value), ours, theirs);
  }

  lemma MappingsAgree(m: Yaml.Mapping, x: seq<Entry>, y: seq<Entry>)
    requires Matching(x, y)
    ensures forall k | !LocalKey(k) :: Agree(m + Meaning(x), m + Meaning(y), k)
  {
    hide Matching, LocalKey, Meaning;
    forall k | !LocalKey(k) ensures Agree(m + Meaning(x), m + Meaning(y), k) {
      MatchingMeans(x, y, k);
    }
  }

  lemma FitsWhenTaken(body: ConfigUpdate, current: Config, version: Option<u64>)
    requires Yaml.Parsed(Rendered(body, current, version)).Success?
    ensures BodyFitsLines(body, current)
  {
    hide *;
    OtherKeysAreRead(body, current, version);
  }

  lemma EndingReads(pre: string, es: seq<Entry>, like: seq<Entry>)
    requires Terminated(pre) && CleanDoc(es) && DistinctEntries(es) && forall e | e in es :: OneLine(e)
    requires ReadTo(pre).Success? && Closable(ReadTo(pre).value) && Matching(like, es)
    requires forall k | k in Meaning(like) :: k !in Flat(ReadTo(pre).value)
    ensures Yaml.Parsed(pre + DocText(es)) == Success(Flat(ReadTo(pre).value) + Meaning(es))
  {
    hide Lines, Meaning, DocText, CleanDoc, OneLine, Terminated, Flat, LocalKey, EntryKey, Yaml.AfterLines,
         Yaml.AfterLine;
    var d, n := ReadTo(pre).value, 1 + |Lines(pre)|;
    forall e | e in es ensures EntryKey(e) !in Flat(d) {
      var i :| 0 <= i < |es| && es[i] == e;
      KeyIsIn(es, i);
      MatchingMeans(like, es, EntryKey(e));
    }
    ThroughAppend(Yaml.EMPTY, pre, DocText(es), 1);
    var d' := EntriesRead(d, es, n);
    assert Yaml.AfterLines(Yaml.EMPTY, Lines(pre + DocText(es)), 1) == Through(Yaml.EMPTY, pre + DocText(es), 1);
    ClosedIsFlat(d', |Lines(pre + DocText(es))| + 1);
  }

  lemma ClosedIsFlat(d: Yaml.Doc, n: nat)
    requires Closable(d)
    ensures Yaml.Closed(d, n) == Success(Flat(d))
  {
  }

  lemma KeyIsIn(es: seq<Entry>, i: nat)
    requires DistinctEntries(es) && i < |es|
    ensures EntryKey(es[i]) in Meaning(es)
  {
    hide EntryKey, DistinctLeaves, Meaning;
    MeaningHas(es, i);
  }

  /**
   What a node takes, every other node takes: the same request is read the same
   way everywhere, and only the node's own address, token, update block and
   version differ.
   */
  lemma TakenEverywhere(a: ConfigUpdate, x: Config, v: Option<u64>, b: ConfigUpdate, y: Config, w: Option<u64>)
    requires SameRequest(a, b) && BodyFitsLines(b, y) && FromYaml(Rendered(a, x, v)).Success?
    requires UpdateOf(b, y).checkInterval >= MIN_CHECK_INTERVAL
    ensures var c := FromYaml(Rendered(a, x, v)).value;
            FromYaml(Rendered(b, y, w)) == Success(Meant(b, y, w, c.mode).(gain := c.gain, beacon := c.beacon))
  {
    hide Rendered, Yaml.Parsed, FromMap, AsMeant, Meant, BodyFitsLines, HttpAt, MicrowavepropAt, UpdateAt, BindOf,
         UpdateOf, BrokenRule, Agree, LocalKey;
    ParsesElsewhere(a, x, v, b, y, w);
    AnyModeReads(a, x, v);
    SomeBlock(a, b);
    hide SameRequest;
    WrittenIsRead(b, y, w);
    MeantLocally(b, y, w);
    var c := FromYaml(Rendered(a, x, v)).value;
    var m, p := Yaml.Parsed(Rendered(a, x, v)).value, Yaml.Parsed(Rendered(b, y, w)).value;
    ReadIsAcceptable(Rendered(a, x, v));
    SameRest(a, x, v, b, y, w, c);
    SameRules(a, x, v, b, y, w, c);
    ReadsElsewhere(m, p, c.(http := HttpConfig(BindOf(b)), update := UpdateOf(b, y),
                            microwaveprop := Meant(b, y, w, Usb).microwaveprop));
  }

  lemma MeantLocally(body: ConfigUpdate, current: Config, version: Option<u64>)
    ensures var meant := Meant(body, current, version, Usb);
            meant.http == HttpConfig(BindOf(body)) && meant.update == UpdateOf(body, current)
  {
  }

  lemma SomeBlock(a: ConfigUpdate, b: ConfigUpdate)
    requires SameRequest(a, b)
    ensures a.microwaveprop.Some? && b.microwaveprop.Some?
  {
  }

  lemma ReadsElsewhere(m: Yaml.Mapping, p: Yaml.Mapping, c: Config)
    requires forall k | !LocalKey(k) :: Agree(m, p, k)
    requires FromMap(m).Success? && BrokenRule(c).None?
    requires c == FromMap(m).value.(http := c.http, microwaveprop := c.microwaveprop, update := c.update)
    requires HttpAt(p) == Success(c.http) && UpdateAt(p) == Success(c.update)
    requires MicrowavepropAt(p) == Success(c.microwaveprop)
    ensures FromMap(p) == Success(c)
  {
    hide RequiredF64At, RequiredAt, TextAt, F64At, GainAt, U32At, BeaconAt, HttpAt, MicrowavepropAt, UpdateAt,
         ParseMode, Agree;
    NotLocal();
    hide LocalKey;
    ReadersAgree(m, p);
    SameRequired(m, p, "mode");
    hide BrokenRule;
  }

  lemma NotLocal()
    ensures !LocalKey("frequency") && !LocalKey("mode") && !LocalKey("driver") && !LocalKey("sample_rate")
    ensures !LocalKey("gain") && !LocalKey("ppm") && !LocalKey("period_seconds") && !LocalKey("beacon")
  {
  }

  lemma SameRest(a: ConfigUpdate, x: Config, v: Option<u64>, b: ConfigUpdate, y: Config, w: Option<u64>, c: Config)
    requires SameRequest(a, b) && AsMeant(c, a, x, v)
    ensures Meant(b, y, w, c.mode).(gain := c.gain, beacon := c.beacon) ==
            c.(http := HttpConfig(BindOf(b)), update := UpdateOf(b, y),
               microwaveprop := Meant(b, y, w, Usb).microwaveprop)
  {
    hide TokenOf, BindOf, UpdateOf, VersionOf;
  }

  lemma SameRules(a: ConfigUpdate, x: Config, v: Option<u64>, b: ConfigUpdate, y: Config, w: Option<u64>, c: Config)
    requires SameRequest(a, b) && AsMeant(c, a, x, v) && BrokenRule(c).None?
    requires UpdateOf(b, y).checkInterval >= MIN_CHECK_INTERVAL
    ensures BrokenRule(c.(http := HttpConfig(BindOf(b)), update := UpdateOf(b, y),
                          microwaveprop := Meant(b, y, w, Usb).microwaveprop)).None?
  {
    hide Value, BrokenBeaconRule, TokenOf, BindOf, UpdateOf, VersionOf, GridsquareFits;
  }

  // ---------------- exactly what a document is read as -------------------

  /** What the lines up to the mode's leave in the mapping; the frequency and the mode decide it. */
  function Brought(body: ConfigUpdate): Yaml.Mapping {
    if ReadTo(Beginning(body)).Success? then Flat(ReadTo(Beginning(body)).value) else map[]
  }

  /** The texts fit their lines, and the lines up to the mode's read and bring no key that is written behind them. */
  predicate Parses(body: ConfigUpdate, current: Config, version: Option<u64>) {
    && BodyFitsLines(body, current)
    && ReadTo(Beginning(body)).Success? && Closable(ReadTo(Beginning(body)).value)
    && forall k | k in Meaning(EntriesAfterMode(body, current, version)) :: k !in Brought(body)
  }

  /** For every mode string: when a rendered update parses, and to which mapping. */
  lemma ParsesExactly(body: ConfigUpdate, current: Config, version: Option<u64>)
    ensures var parsed, es := Yaml.Parsed(Rendered(body, current, version)), EntriesAfterMode(body, current, version);
            && (parsed.Success? <==> Parses(body, current, version))
            && (parsed.Success? ==> parsed.value == Brought(body) + Meaning(es))
  {
    hide Rendered, Yaml.Parsed, ReadTo, Beginning, AfterMode, BodyFitsLines, EntriesAfterMode, Meaning, DocText,
         CleanDoc, DistinctEntries, OneLine, Terminated, Flat, Closable;
    var es, pre := EntriesAfterMode(body, current, version), Beginning(body);
    RenderedEnds(body, current, version);
    AfterModeIsClean(body, current, version);
    if Yaml.Parsed(Rendered(body, current, version)).Success? {
      FitsWhenTaken(body, current, version);
      EndingIsRead(pre, es);
    }
    if Parses(body, current, version) {
      SameMatches(es);
      EndingReads(pre, es, es);
    }
  }

  /** Behind the mode there is no second mode, and none of what the update leaves out. */
  lemma NotWritten(body: ConfigUpdate, current: Config, version: Option<u64>)
    ensures var m := Meaning(EntriesAfterMode(body, current, version));
            && "mode" !in m && (body.gain.None? ==> "gain" !in m) && (body.beacon.None? ==> "beacon" !in m)
            && (body.microwaveprop.None? ==> "microwaveprop" !in m)
  {
    var all, es := Document(Plainly(body), current, version), EntriesAfterMode(body, current, version);
    KnownIsClean();
    SameAfterMode(body, current, version);
    FirstTwo(Plainly(body), current, version);
    DocumentIsDistinct(Plainly(body), current, version);
    PlainMeaning(body, current, version);
    LeftOut(Plainly(body), current, version);
    hide Document, EntriesAfterMode, Meaning, DocText, BodyFitsLines, OneLine, Show, DistinctLeaves;
    assert EntryKey(all[1]) == "mode";
    forall x | x in es ensures EntryKey(x) != "mode" {
      var i :| 0 <= i < |es| && es[i] == x;
      assert EntryKey(all[1]) != EntryKey(all[i + 2]);
    }
    MeaningLacks(es, "mode");
  }

  lemma LeftOut(body: ConfigUpdate, current: Config, version: Option<u64>)
    ensures var m := Meaning(Document(body, current, version));
            && (body.gain.None? ==> "gain" !in m) && (body.beacon.None? ==> "beacon" !in m)
            && (body.microwaveprop.None? ==> "microwaveprop" !in m)
  {
    hide Document, Rank;
    ScalarRanks();
    BlockRanks();
    Located(body, current, version, "gain");
    Located(body, current, version, "beacon");
    Located(body, current, version, "microwaveprop");
  }

  /** The config an update makes, read off the update and what its mode brought. */
  function Made(body: ConfigUpdate, current: Config, version: Option<u64>): Result<Config, Error> {
    var brought := Brought(body);
    var word :- RequiredAt(brought, "mode");
    var mode :- ParseMode(word);
    var gain :- if body.gain.Some? then Success(body.gain) else GainAt(brought);
    var beacon :- if body.beacon.Some? then Success(body.beacon) else BeaconAt(brought);
    var meant := Meant(body, current, version, mode);
    var microwaveprop :-
      if body.microwaveprop.Some? then Success(meant.microwaveprop) else MicrowavepropAt(brought);
    Validated(meant.(gain := gain, beacon := beacon, microwaveprop := microwaveprop))
  }

  lemma LeftOutIsBrought(body: ConfigUpdate, current: Config, version: Option<u64>)
    requires Parses(body, current, version)
    ensures var m, b := Brought(body) + Meaning(EntriesAfterMode(body, current, version)), Brought(body);
            && RequiredAt(m, "mode") == RequiredAt(b, "mode")
            && (body.gain.None? ==> GainAt(m) == GainAt(b)) && (body.beacon.None? ==> BeaconAt(m) == BeaconAt(b))
            && (body.microwaveprop.None? ==> MicrowavepropAt(m) == MicrowavepropAt(b))
  {
    hide Parses, Brought, Meaning, EntriesAfterMode, GainAt, BeaconAt, MicrowavepropAt, RequiredAt;
    NotWritten(body, current, version);
    var m, b := Brought(body) + Meaning(EntriesAfterMode(body, current, version)), Brought(body);
    SameRequired(m, b, "mode");
    ReadersAgree(m, b);
  }

  /**
   Exactly, for every mode string: a rendered update is taken if and only if it
   parses and the config it makes keeps the rules, and then it is that config.
   What the update says is as meant; the mode, and a gain, beacon or block that
   the update leaves out, are what the lines of the mode brought.
   */
  lemma AnyModeReadsExactly(body: ConfigUpdate, current: Config, version: Option<u64>)
    ensures var r := FromYaml(Rendered(body, current, version));
            && (r.Success? <==> Parses(body, current, version) && Made(body, current, version).Success?)
            && (r.Success? ==> r == Made(body, current, version))
  {
    hide Rendered, Yaml.Parsed, Meaning, Parses, Brought, EntriesAfterMode, RequiredF64At, RequiredAt, TextAt, F64At,
         GainAt, U32At, BeaconAt, HttpAt, MicrowavepropAt, UpdateAt, ParseMode, BrokenRule, BindOf, UpdateOf, TokenOf,
         VersionOf;
    ParsesExactly(body, current, version);
    if Parses(body, current, version) {
      LeftOutIsBrought(body, current, version);
      WrittenIsRead(body, current, version);
    }
  }

  lemma KnownModeIsClean(s: string)
    requires ParseMode(s).Success?
    ensures CleanScalar(s) && ModeName(ParseMode(s).value) == s
  {
    hide CleanScalar;
    ModeNameIsClean(ParseMode(s).value);
  }

  /**
   An update is taken exactly as sent if and only if its mode is a mode's name,
   its texts fit their lines and what it means keeps the rules.
   */
  lemma TakenAsSentExactly(body: ConfigUpdate, current: Config, version: Option<u64>)
    ensures var r := FromYaml(Rendered(body, current, version));
            (r.Success? && ModeName(r.value.mode) == body.mode
             && r.value == Meant(body, current, version, r.value.mode)) <==>
            BodyFitsLines(body, current) && Resolved(body, current, version).Success?
  {
    hide FromYaml, Rendered, BodyFitsLines, CleanScalar, BrokenRule, AsMeant, TokenOf, BindOf, UpdateOf, VersionOf;
    var r := FromYaml(Rendered(body, current, version));
    if r.Success? {
      AnyModeReads(body, current, version);
      ModeNames(ModeName(r.value.mode), r.value.mode);
    }
    if ParseMode(body.mode).Success? {
      KnownModeIsClean(body.mode);
      RenderedUpdateReads(body, current, version);
    }
  }

  // ---------------- the block a mode brings ------------------------------

  /** The `microwaveprop` block among the lines of the mode, if there is one that can be read. */
  function BroughtBlock(body: ConfigUpdate): Option<MicrowavepropConfig> {
    var block := MicrowavepropAt(Brought(body));
    if block.Success? then block.value else None
  }

  function BroughtVersion(body: ConfigUpdate): u64 {
    if BroughtBlock(body).Some? then BroughtBlock(body).value.configVersion else 0
  }

  /** The version after an update that is taken: kept with the update's own block, otherwise what the mode brought. */
  lemma VersionExactly(body: ConfigUpdate, current: Config)
    requires FromYaml(Rendered(body, current, None)).Success?
    ensures AppliedVersion(FromYaml(Rendered(body, current, None)).value) ==
            if body.microwaveprop.Some? then AppliedVersion(current) else BroughtVersion(body)
  {
    hide FromYaml, Rendered, Brought, MicrowavepropAt, Parses, GainAt, BeaconAt, RequiredAt, ParseMode, BrokenRule,
         TokenOf, BindOf, UpdateOf;
    AnyModeReadsExactly(body, current, None);
  }

  /** A clean mode word brings nothing along. */
  lemma CleanBringsNothing(body: ConfigUpdate)
    requires CleanScalar(body.mode)
    ensures Brought(body) ==
            map["frequency" := Yaml.Scalar(Show(body.frequency)), "mode" := Yaml.Scalar(body.mode)]
    ensures BroughtBlock(body).None?
  {
    hide *;
    var es := FirstEntries(body);
    FirstEntriesAreClean(body);
    FirstEntriesText(body);
    FirstEntriesMean(body);
    ClosedReads(es);
    BroughtIs(body);
  }

  lemma BroughtIs(body: ConfigUpdate)
    requires ReadTo(Beginning(body)).Success?
    ensures Brought(body) == Flat(ReadTo(Beginning(body)).value)
    ensures "microwaveprop" !in Brought(body) ==> BroughtBlock(body).None?
  {
    hide ReadTo, Beginning, Flat;
    OnlyScalars(Brought(body));
  }

  function FirstEntries(body: ConfigUpdate): seq<Entry> {
    [Single(Bare("frequency", Show(body.frequency))), Single(Bare("mode", body.mode))]
  }

  lemma FirstEntriesAreClean(body: ConfigUpdate)
    requires CleanScalar(body.mode)
    ensures var es := FirstEntries(body);
            CleanDoc(es) && DistinctEntries(es) && forall e | e in es :: OneLine(e)
  {
    ShowIsClean(body.frequency);
    CleanFitsLine(Show(body.frequency));
    CleanFitsLine(body.mode);
    CleanScalarKeys();
    hide Show, CleanKey, CleanScalar, NoNewline;
  }

  lemma FirstEntriesText(body: ConfigUpdate)
    ensures DocText(FirstEntries(body)) == Beginning(body)
  {
    hide Show;
    var first, second := Single(Bare("frequency", Show(body.frequency))), Single(Bare("mode", body.mode));
    assert FirstEntries(body) == [first] + [second];
    DocTextAppend([first], [second]);
    DocTextOne(first);
    DocTextOne(second);
    assert EntryText(second) == ModeLine(body.mode) + "\n";
  }

  lemma FirstEntriesMean(body: ConfigUpdate)
    ensures Meaning(FirstEntries(body)) ==
            map["frequency" := Yaml.Scalar(Show(body.frequency)), "mode" := Yaml.Scalar(body.mode)]
  {
    hide Show;
    var es := FirstEntries(body);
    assert es[1..][1..] == [];
    assert Meaning(es[1..]) == map["mode" := Yaml.Scalar(body.mode)] + map[];
  }

  lemma ClosedReads(es: seq<Entry>)
    requires CleanDoc(es) && DistinctEntries(es) && forall e | e in es :: OneLine(e)
    ensures ReadTo(DocText(es)).Success? && Flat(ReadTo(DocText(es)).value) == Meaning(es)
  {
    hide CleanDoc, DistinctEntries, OneLine, Meaning, DocText, Through;
    var d := EntriesRead(Yaml.EMPTY, es, 1);
    assert map[] + Meaning(es) == Meaning(es);
  }

  lemma OnlyScalars(m: Yaml.Mapping)
    ensures "microwaveprop" !in m ==> MicrowavepropAt(m) == Success(None)
  {
  }
}
