/** The `Log` behavior: before a record is saved it works out which logged
    attributes changed, stamps the change time, checks and renews the
    record's random version; after the save it writes one row describing
    the change to the record's log table. */
module LogBehavior {
  import opened Php
  import opened Records

  /** Upper bound of a version: the largest signed 64-bit integer minus one. */
  const MaxVersion: nat := 9223372036854775806
  /** `mt_getrandmax()`. */
  const RandMax: nat := 2147483647
  /** `bcdiv` keeps twelve decimal places. */
  const Scale: nat := 1000000000000

  /** One `logAttributes` entry. */
  datatype LogAttribute =
    | Named(name: string)              // integer key: the value names an owner attribute
    | Computed(key: string)            // a Closure: its result is supplied per save
    | Fixed(key: string, value: Value) // any other value is stored as given

  /** The behavior's configuration; `changedByField` is the declared field
      the multi-record logger reads (see `ChangedByAsWritten`). */
  datatype Config = Config(
    logAttributes: seq<LogAttribute>,
    docId: string,
    changedAttributesField: string,
    changedByField: string,
    versionField: Option<string>,
    timeField: string)

  function DefaultConfig(logAttributes: seq<LogAttribute>, versionField: Option<string>): Config {
    Config(logAttributes, "doc_id", "changed_attributes", "changed_by", versionField, "atime")
  }

  /** The exceptions the behavior ends with. */
  datatype Failure =
    | Stale                        // StaleObjectException
    | UnknownProperty(name: string) // reading or writing a property the record does not have
    | NoAttribute(name: string)     // setAttribute on a name that is not an attribute
    | MissingClass(name: string)    // the log class does not exist
    | LogNotSaved                   // the log row failed to save
    | NotAName(key: string)         // a Closure entry used where a name is expected

  datatype SaveEvent = BeforeInsert | BeforeUpdate

  /** An event reaching an after-save handler: only an `AfterSaveEvent`
      carries a changed-attributes array, which may be null. */
  datatype AfterEvent = OtherEvent | AfterSave(changedAttributes: Option<map<string, Value>>)

  /** The argument of `getLogged`. */
  datatype LoggedArg = OneName(name: string) | Names(names: seq<string>) | NoNames

  /** The property name `$owner->{$versionField}` reads: a null field is
      the empty name. */
  function VersionName(c: Config): string {
    if c.versionField.Some? then c.versionField.value else ""
  }

  // ----- getLogged -----

  function LoggedNames(arg: LoggedArg): seq<string> {
    match arg
    case OneName(n) => [n]
    case Names(ns) => ns
    case NoNames => []
  }

  /** The filter on the changed-attributes column: none for an empty list,
      otherwise the list as a brace literal. */
  function LoggedFilter(arg: LoggedArg): (f: Option<string>)
    ensures f.None? <==> |LoggedNames(arg)| == 0
  {
    var names := LoggedNames(arg);
    if |names| > 0 then Some(BraceList(names)) else None
  }

  /** The filter literal names exactly the requested attributes. */
  lemma LoggedFilterRoundTrip(arg: LoggedArg)
    requires |LoggedNames(arg)| > 0
    requires forall k :: 0 <= k < |LoggedNames(arg)| ==> ',' !in LoggedNames(arg)[k]
    ensures LoggedFilter(arg).Some? && ParseBraceList(LoggedFilter(arg).value) == Some(LoggedNames(arg))
  {
    BraceListRoundTrip(LoggedNames(arg));
  }

  // ----- setNewVersion -----

  lemma MulCancel(x: int, y: int, d: int)
    requires d > 0 && x * d <= y * d
    ensures x <= y
  {
  }

  lemma DivBound(a: nat, b: nat, d: nat)
    requires d > 0 && a <= b * d
    ensures a / d <= b
  {
    assert (a / d) * d <= a;
    MulCancel(a / d, b, d);
  }

  lemma DivMonotone(a: nat, b: nat, d: nat)
    requires d > 0 && a <= b
    ensures a / d <= b / d
  {
    assert (a / d) * d <= a;
    assert b < (b / d + 1) * d;
    MulCancel(a / d, b / d, d);
  }

  lemma MulMonotone(x: nat, y: nat, c: nat)
    requires x <= y
    ensures c * x <= c * y
  {
  }

  /** The random share `mt_rand() / mt_getrandmax()` to twelve places,
      scaled by `Scale`. */
  function Percent(rand: nat): (p: nat)
    requires rand <= RandMax
    ensures p <= Scale
  {
    MulMonotone(rand, RandMax, Scale);
    DivBound(rand * Scale, Scale, RandMax);
    rand * Scale / RandMax
  }

  /** `bcmul($difference, $rand_percent, 0)`: the version drawn for `rand`. */
  function NewVersion(rand: nat): (v: nat)
    requires rand <= RandMax
    ensures v <= MaxVersion
  {
    var p := Percent(rand);
    MulMonotone(p, Scale, MaxVersion);
    DivBound(MaxVersion * p, MaxVersion, Scale);
    MaxVersion * p / Scale
  }

  /** A larger draw never gives a smaller version, the smallest draw gives
      0 and the largest gives the bound. */
  lemma NewVersionRange(r1: nat, r2: nat)
    requires r1 <= r2 <= RandMax
    ensures NewVersion(r1) <= NewVersion(r2)
    ensures NewVersion(0) == 0 && NewVersion(RandMax) == MaxVersion
  {
    MulMonotone(r1, r2, Scale);
    DivMonotone(r1 * Scale, r2 * Scale, RandMax);
    MulMonotone(Percent(r1), Percent(r2), MaxVersion);
    DivMonotone(MaxVersion * Percent(r1), MaxVersion * Percent(r2), Scale);
  }

  /** The version is stored as its decimal text, which reads back as the
      number drawn. */
  lemma VersionText(rand: nat)
    requires rand <= RandMax
    ensures AllDigits(NatToDecimal(NewVersion(rand))) && DigitsValue(NatToDecimal(NewVersion(rand))) == NewVersion(rand)
  {
    DecimalRoundTrip(NewVersion(rand));
  }

  // ----- the loop of logBeforeSave -----

  /** An entry's attribute name and value for this save. */
  function EntryName(e: LogAttribute): string {
    match e
    case Named(n) => n
    case Computed(k) => k
    case Fixed(k, _) => k
  }

  function EntryValue(e: LogAttribute, s: RecordState, results: string -> Value): Value {
    match e
    case Named(n) => Get(s.attrs, n)
    case Computed(k) => results(k)
    case Fixed(_, v) => v
  }

  /** The entry names the time field, which the loop skips. */
  predicate IsTime(e: LogAttribute, s: RecordState, timeField: string) {
    HasAttribute(s, EntryName(e)) && EntryName(e) == timeField
  }

  /** The entry is a change: an attribute other than the time field whose
      old value is loosely unequal to the entry's value. */
  predicate IsChange(e: LogAttribute, s: RecordState, timeField: string, results: string -> Value) {
    var n := EntryName(e);
    HasAttribute(s, n) && n != timeField && !LooseEquals(Get(s.oldAttrs, n), EntryValue(e, s, results))
  }

  /** The three fields the loop updates. */
  datatype Tally = Tally(toSave: map<string, Value>, changed: seq<string>, toSaveLog: bool)

  function TallyStep(t: Tally, e: LogAttribute, s: RecordState, timeField: string, results: string -> Value): Tally {
    var n := EntryName(e);
    if IsTime(e, s, timeField) then t
    else if IsChange(e, s, timeField, results) then Tally(t.toSave[n := EntryValue(e, s, results)], t.changed + [n], true)
    else t.(toSave := t.toSave[n := EntryValue(e, s, results)])
  }

  /** The fields after the first `i` entries. */
  function TallyUpTo(entries: seq<LogAttribute>, s: RecordState, timeField: string, results: string -> Value,
                     t0: Tally, i: nat): Tally
    requires i <= |entries|
  {
    if i == 0 then t0 else TallyStep(TallyUpTo(entries, s, timeField, results, t0, i - 1), entries[i - 1], s, timeField, results)
  }

  /** The log flag is raised exactly when some entry changed. */
  lemma {:induction false} TallyFlag(entries: seq<LogAttribute>, s: RecordState, timeField: string,
                                     results: string -> Value, t0: Tally, i: nat)
    requires i <= |entries|
    ensures TallyUpTo(entries, s, timeField, results, t0, i).toSaveLog <==>
              t0.toSaveLog || exists k :: 0 <= k < i && IsChange(entries[k], s, timeField, results)
    decreases i
  {
    if i > 0 {
      TallyFlag(entries, s, timeField, results, t0, i - 1);
    }
  }

  /** The changed list only grows, and only by names of attributes other
      than the time field. */
  lemma {:induction false} TallyGrows(entries: seq<LogAttribute>, s: RecordState, timeField: string,
                                      results: string -> Value, t0: Tally, i: nat)
    requires i <= |entries|
    ensures var t := TallyUpTo(entries, s, timeField, results, t0, i);
            && |t0.changed| <= |t.changed| && t.changed[..|t0.changed|] == t0.changed
            && forall j :: |t0.changed| <= j < |t.changed| ==> HasAttribute(s, t.changed[j]) && t.changed[j] != timeField
    decreases i
  {
    if i > 0 {
      TallyGrows(entries, s, timeField, results, t0, i - 1);
      var p := TallyUpTo(entries, s, timeField, results, t0, i - 1);
      var t := TallyUpTo(entries, s, timeField, results, t0, i);
      assert t.changed[..|p.changed|] == p.changed;
      assert t.changed[..|t0.changed|] == p.changed[..|t0.changed|];
    }
  }

  /** Every changed entry's name is in the changed list. */
  lemma {:induction false} TallyCovers(entries: seq<LogAttribute>, s: RecordState, timeField: string,
                                       results: string -> Value, t0: Tally, i: nat)
    requires i <= |entries|
    ensures var t := TallyUpTo(entries, s, timeField, results, t0, i);
            forall k :: 0 <= k < i && IsChange(entries[k], s, timeField, results) ==> EntryName(entries[k]) in t.changed
    decreases i
  {
    if i > 0 {
      TallyCovers(entries, s, timeField, results, t0, i - 1);
      var p := TallyUpTo(entries, s, timeField, results, t0, i - 1);
      var t := TallyUpTo(entries, s, timeField, results, t0, i);
      assert forall n :: n in p.changed ==> n in t.changed;
    }
  }

  /** Every entry but the time field lands in the to-save map, nothing is
      removed from it, and the time field's slot is left alone. */
  lemma {:induction false} TallyToSave(entries: seq<LogAttribute>, s: RecordState, timeField: string,
                                       results: string -> Value, t0: Tally, i: nat)
    requires i <= |entries|
    ensures var t := TallyUpTo(entries, s, timeField, results, t0, i);
            && (forall k :: 0 <= k < i && !IsTime(entries[k], s, timeField) ==> EntryName(entries[k]) in t.toSave)
            && t0.toSave.Keys <= t.toSave.Keys
            && (HasAttribute(s, timeField) ==>
                  (timeField in t.toSave <==> timeField in t0.toSave)
                  && (timeField in t0.toSave ==> t.toSave[timeField] == t0.toSave[timeField]))
    decreases i
  {
    if i > 0 {
      TallyToSave(entries, s, timeField, results, t0, i - 1);
    }
  }

  /** The loop over `logAttributes`. */
  method TallyEntries(entries: seq<LogAttribute>, s: RecordState, timeField: string, results: string -> Value, t0: Tally)
    returns (t: Tally)
    ensures t == TallyUpTo(entries, s, timeField, results, t0, |entries|)
  {
    t := t0;
    var i := 0;
    while i < |entries|
      invariant 0 <= i <= |entries|
      invariant t == TallyUpTo(entries, s, timeField, results, t0, i)
    {
      var e := entries[i];
      var name, value;
      match e {
        case Named(n) => name, value := n, Get(s.attrs, n);
        case Computed(k) => name, value := k, results(k);
        case Fixed(k, v) => name, value := k, v;
      }
      if HasAttribute(s, name) {
        if name == timeField {
        } else if !LooseEquals(Get(s.oldAttrs, name), value) {
          t := Tally(t.toSave[name := value], t.changed + [name], true);
        } else {
          t := t.(toSave := t.toSave[name := value]);
        }
      } else {
        t := t.(toSave := t.toSave[name := value]);
      }
      i := i + 1;
    }
  }

  // ----- logBeforeSave, stated as a function of the state it starts from -----

  datatype BeforeSaveResult = BeforeSaveResult(
    err: Option<Failure>, owner: RecordState, toSave: map<string, Value>, changed: seq<string>, toSaveLog: bool)

  /** The tally of one save: the log flag starts false and the changed
      list starts empty. */
  function SaveTally(c: Config, s: RecordState, toSave0: map<string, Value>, results: string -> Value): Tally {
    TallyUpTo(c.logAttributes, s, c.timeField, results, Tally(toSave0, [], false), |c.logAttributes|)
  }

  /** The last step: the owner's version property is copied into the
      to-save map. */
  function CopyVersion(c: Config, s: RecordState, toSave: map<string, Value>, changed: seq<string>): BeforeSaveResult {
    var name := VersionName(c);
    match ReadProperty(s, name)
    case None => BeforeSaveResult(Some(UnknownProperty(name)), s, toSave, changed, true)
    case Some(v) => BeforeSaveResult(None, s, toSave[name := v], changed, true)
  }

  /** With a version field: the stale check on update, then a new version. */
  function RenewVersion(c: Config, s: RecordState, toSave: map<string, Value>, changed: seq<string>,
                        event: SaveEvent, stored: Value, rand: nat): BeforeSaveResult
    requires rand <= RandMax
  {
    match c.versionField
    case None => CopyVersion(c, s, toSave, changed)
    case Some(vf) =>
      if event == BeforeUpdate && stored != Null && ToString(stored) != ToString(Get(s.attrs, vf)) then
        BeforeSaveResult(Some(Stale), s, toSave, changed, true)
      else if !HasAttribute(s, vf) then
        BeforeSaveResult(Some(NoAttribute(vf)), s, toSave, changed, true)
      else
        CopyVersion(c, s.(attrs := s.attrs[vf := Str(NatToDecimal(NewVersion(rand)))]), toSave, changed)
  }

  /** What follows the loop: nothing more when nothing changed, else the
      time stamp on the owner and in the to-save map, then the version. */
  function AfterTally(c: Config, s: RecordState, t: Tally, event: SaveEvent, time: string, stored: Value, rand: nat)
    : BeforeSaveResult
    requires rand <= RandMax
  {
    if !t.toSaveLog then BeforeSaveResult(None, s, t.toSave, t.changed, false)
    else if !HasAttribute(s, c.timeField) then BeforeSaveResult(Some(UnknownProperty(c.timeField)), s, t.toSave, t.changed, true)
    else RenewVersion(c, s.(attrs := s.attrs[c.timeField := Str(time)]), t.toSave[c.timeField := Str(time)], t.changed,
                      event, stored, rand)
  }

  function BeforeSave(c: Config, s: RecordState, toSave0: map<string, Value>, event: SaveEvent,
                      results: string -> Value, time: string, stored: Value, rand: nat): BeforeSaveResult
    requires rand <= RandMax
  {
    AfterTally(c, s, SaveTally(c, s, toSave0, results), event, time, stored, rand)
  }

  /** Nothing changed: the save goes ahead and neither the time nor the
      version is touched. */
  lemma BeforeSaveUnchanged(c: Config, s: RecordState, toSave0: map<string, Value>, event: SaveEvent,
                            results: string -> Value, time: string, stored: Value, rand: nat)
    requires rand <= RandMax
    requires forall k :: 0 <= k < |c.logAttributes| ==> !IsChange(c.logAttributes[k], s, c.timeField, results)
    ensures var o := BeforeSave(c, s, toSave0, event, results, time, stored, rand);
            o.err == None && o.owner == s && !o.toSaveLog && o.changed == []
  {
    TallyUnchanged(c.logAttributes, s, c.timeField, results, Tally(toSave0, [], false), |c.logAttributes|);
  }

  /** Without changed entries the changed list and the log flag stay as they were. */
  lemma {:induction false} TallyUnchanged(entries: seq<LogAttribute>, s: RecordState, timeField: string,
                                          results: string -> Value, t0: Tally, i: nat)
    requires i <= |entries|
    requires forall k :: 0 <= k < i ==> !IsChange(entries[k], s, timeField, results)
    ensures TallyUpTo(entries, s, timeField, results, t0, i).changed == t0.changed
    ensures TallyUpTo(entries, s, timeField, results, t0, i).toSaveLog == t0.toSaveLog
    decreases i
  {
    if i > 0 {
      TallyUnchanged(entries, s, timeField, results, t0, i - 1);
    }
  }

  /** The tally of a save: the log flag is up exactly when some entry
      changed, every changed entry is listed, and only changed entries are
      listed, each an attribute other than the time field. */
  lemma SaveTallySpec(c: Config, s: RecordState, toSave0: map<string, Value>, results: string -> Value)
    ensures var t := SaveTally(c, s, toSave0, results);
            && (t.toSaveLog <==> exists k :: 0 <= k < |c.logAttributes| && IsChange(c.logAttributes[k], s, c.timeField, results))
            && (forall k :: 0 <= k < |c.logAttributes| && IsChange(c.logAttributes[k], s, c.timeField, results) ==>
                  EntryName(c.logAttributes[k]) in t.changed)
            && (forall j :: 0 <= j < |t.changed| ==>
                  HasAttribute(s, t.changed[j]) && t.changed[j] != c.timeField
                  && ChangedAt(c.logAttributes, s, c.timeField, results, |c.logAttributes|, t.changed[j]))
  {
    TallyFlag(c.logAttributes, s, c.timeField, results, Tally(toSave0, [], false), |c.logAttributes|);
    TallyCovers(c.logAttributes, s, c.timeField, results, Tally(toSave0, [], false), |c.logAttributes|);
    TallyGrows(c.logAttributes, s, c.timeField, results, Tally(toSave0, [], false), |c.logAttributes|);
    TallyListed(c.logAttributes, s, c.timeField, results, toSave0, |c.logAttributes|);
  }

  /** Something changed: the time is stamped on the owner and in the
      to-save map, unless the time field is no property of the owner,
      which fails; what follows never touches the time again. */
  lemma AfterTallyStamps(c: Config, s: RecordState, t: Tally, event: SaveEvent, time: string, stored: Value, rand: nat)
    requires rand <= RandMax && t.toSaveLog
    requires VersionName(c) != c.timeField
    ensures var o := AfterTally(c, s, t, event, time, stored, rand);
            && o.toSaveLog && o.changed == t.changed
            && (!HasAttribute(s, c.timeField) <==> o.err == Some(UnknownProperty(c.timeField)))
            && (HasAttribute(s, c.timeField) ==> o.owner.attrs[c.timeField] == Str(time) && o.toSave[c.timeField] == Str(time))
  {
    if HasAttribute(s, c.timeField) {
      RenewKeeps(c, s.(attrs := s.attrs[c.timeField := Str(time)]), t.toSave[c.timeField := Str(time)], t.changed,
                 event, stored, rand, c.timeField);
    }
  }

  /** The version step leaves every other attribute and to-save slot as
      it was, and fails on no other property than the version's. */
  lemma RenewKeeps(c: Config, s: RecordState, toSave: map<string, Value>, changed: seq<string>,
                   event: SaveEvent, stored: Value, rand: nat, n: string)
    requires rand <= RandMax && n != VersionName(c) && n in s.attrs && n in toSave
    ensures var o := RenewVersion(c, s, toSave, changed, event, stored, rand);
            && o.toSaveLog && o.changed == changed && o.err != Some(UnknownProperty(n))
            && n in o.owner.attrs && o.owner.attrs[n] == s.attrs[n]
            && n in o.toSave && o.toSave[n] == toSave[n]
  {
  }

  /** The stale check: with a version field, on update and once the time
      is stamped, the save fails as stale exactly when a stored version
      exists and differs as text from the record's; otherwise the record
      gets the text of a new version within the bound. */
  lemma BeforeSaveVersion(c: Config, s: RecordState, toSave: map<string, Value>, changed: seq<string>,
                          event: SaveEvent, stored: Value, rand: nat)
    requires rand <= RandMax && c.versionField.Some?
    ensures var vf := c.versionField.value;
            var o := RenewVersion(c, s, toSave, changed, event, stored, rand);
            && (o.err == Some(Stale) <==>
                  event == BeforeUpdate && stored != Null && ToString(stored) != ToString(Get(s.attrs, vf)))
            && (o.err == None ==>
                  exists v: nat :: v <= MaxVersion && o.owner.attrs[vf] == Str(NatToDecimal(v)) && o.toSave[vf] == o.owner.attrs[vf])
  {
    var vf := c.versionField.value;
    var o := RenewVersion(c, s, toSave, changed, event, stored, rand);
    if o.err == None {
      var v := NewVersion(rand);
      assert o.owner.attrs[vf] == Str(NatToDecimal(v));
    }
  }

  /** Without a version field the source reads the empty property name
      after stamping the time: unless the record has an attribute named
      "", a save that changed something fails there. */
  lemma BeforeSaveNoVersionField(c: Config, s: RecordState, toSave: map<string, Value>, changed: seq<string>,
                                 event: SaveEvent, stored: Value, rand: nat)
    requires rand <= RandMax && c.versionField.None?
    requires "" !in s.attrs && "" !in s.columns
    ensures RenewVersion(c, s, toSave, changed, event, stored, rand).err == Some(UnknownProperty(""))
  {
  }

  /** The behavior object attached to one record. */
  class Log {
    const owner: Record
    const cfg: Config
    var logClass: Option<string>
    var toSaveLog: bool
    var changedAttributes: seq<string>
    var toSaveAttributes: map<string, Value>

    constructor (owner: Record, cfg: Config, logClass: Option<string>)
      ensures this.owner == owner && this.cfg == cfg && this.logClass == logClass
      ensures !toSaveLog && changedAttributes == [] && toSaveAttributes == map[]
    {
      this.owner := owner;
      this.cfg := cfg;
      this.logClass := logClass;
      toSaveLog := false;
      changedAttributes := [];
      toSaveAttributes := map[];
    }

    /** `attach`: a missing log class defaults to the owner's class name
        followed by "Log", which must name an existing class. */
    method Attach(classes: set<string>) returns (err: Option<Failure>)
      modifies this
      ensures logClass == if old(logClass).None? then Some(owner.className + "Log") else old(logClass)
      ensures err == None <==> logClass.value in classes
      ensures err.Some? ==> err == Some(MissingClass(logClass.value))
      ensures toSaveLog == old(toSaveLog) && changedAttributes == old(changedAttributes)
      ensures toSaveAttributes == old(toSaveAttributes)
    {
      if logClass.None? {
        logClass := Some(owner.className + "Log");
      }
      if logClass.value !in classes {
        return Some(MissingClass(logClass.value));
      }
      return None;
    }

    /** `setNewVersion`: the owner's version attribute receives the
        decimal text of a fresh version, or the assignment is refused. */
    method SetNewVersion(rand: nat) returns (ok: bool)
      requires rand <= RandMax
      modifies owner
      ensures ok == HasAttribute(old(owner.State()), VersionName(cfg))
      ensures owner.State() == if ok then old(owner.State()).(attrs := old(owner.attrs)[VersionName(cfg) := Str(NatToDecimal(NewVersion(rand)))])
                               else old(owner.State())
    {
      var version := NewVersion(rand);
      ok := owner.Assign(VersionName(cfg), Str(NatToDecimal(version)));
    }

    /** `logBeforeSave`, with the changed list started afresh. */
    method LogBeforeSave(event: SaveEvent, results: string -> Value, time: string, stored: Value, rand: nat)
      returns (err: Option<Failure>)
      requires rand <= RandMax
      modifies this, owner
      ensures var o := BeforeSave(cfg, old(owner.State()), old(toSaveAttributes), event, results, time, stored, rand);
              err == o.err && owner.State() == o.owner && toSaveAttributes == o.toSave
              && changedAttributes == o.changed && toSaveLog == o.toSaveLog
      ensures logClass == old(logClass)
    {
      var t := TallyEntries(cfg.logAttributes, owner.State(), cfg.timeField, results, Tally(toSaveAttributes, [], false));
      toSaveAttributes, changedAttributes, toSaveLog := t.toSave, t.changed, t.toSaveLog;
      err := Stamp(event, time, stored, rand);
    }

    /** The part of `logBeforeSave` after the loop. */
    method Stamp(event: SaveEvent, time: string, stored: Value, rand: nat) returns (err: Option<Failure>)
      requires rand <= RandMax
      modifies this, owner
      ensures var o := AfterTally(cfg, old(owner.State()), Tally(old(toSaveAttributes), old(changedAttributes), old(toSaveLog)),
                                  event, time, stored, rand);
              err == o.err && owner.State() == o.owner && toSaveAttributes == o.toSave
              && changedAttributes == o.changed && toSaveLog == o.toSaveLog
      ensures logClass == old(logClass)
    {
      if toSaveLog {
        err := StampTime(event, time, stored, rand);
      } else {
        err := None;
      }
    }

    /** A change was logged: stamp the time, then renew the version. */
    method StampTime(event: SaveEvent, time: string, stored: Value, rand: nat) returns (err: Option<Failure>)
      requires rand <= RandMax && toSaveLog
      modifies this, owner
      ensures var o := AfterTally(cfg, old(owner.State()), Tally(old(toSaveAttributes), old(changedAttributes), true),
                                  event, time, stored, rand);
              err == o.err && owner.State() == o.owner && toSaveAttributes == o.toSave
              && changedAttributes == o.changed && toSaveLog == o.toSaveLog
      ensures logClass == old(logClass)
    {
      var ok := owner.Assign(cfg.timeField, Str(time));
      if !ok {
        return Some(UnknownProperty(cfg.timeField));
      }
      toSaveAttributes := toSaveAttributes[cfg.timeField := Str(time)];
      err := CheckVersion(event, stored, rand);
    }

    /** The version part of `logBeforeSave`, once the time is stamped. */
    method CheckVersion(event: SaveEvent, stored: Value, rand: nat) returns (err: Option<Failure>)
      requires rand <= RandMax && toSaveLog
      modifies this, owner
      ensures var o := RenewVersion(cfg, old(owner.State()), old(toSaveAttributes), changedAttributes, event, stored, rand);
              err == o.err && owner.State() == o.owner && toSaveAttributes == o.toSave
              && changedAttributes == old(changedAttributes) && toSaveLog && logClass == old(logClass)
    {
      if cfg.versionField.Some? {
        var vf := cfg.versionField.value;
        if event == BeforeUpdate && stored != Null && ToString(stored) != ToString(Get(owner.attrs, vf)) {
          return Some(Stale);
        }
        var ok := SetNewVersion(rand);
        if !ok {
          return Some(NoAttribute(vf));
        }
      }
      var name := VersionName(cfg);
      var v := ReadProperty(owner.State(), name);
      if v.None? {
        return Some(UnknownProperty(name));
      }
      toSaveAttributes := toSaveAttributes[name := v.value];
      return None;
    }

    /** `logAfterSave`: after a logged change, the to-save map gets the
        record's id under `docId`, loses `id`, and gets the changed list;
        the log row is that map restricted to the log table's columns. */
    method LogAfterSave(event: AfterEvent, logColumns: set<string>, logSaved: bool)
      returns (row: Option<map<string, Value>>, err: Option<Failure>)
      modifies this
      ensures var o := AfterSaveRow(cfg, owner.State(), old(toSaveAttributes), old(changedAttributes), logColumns);
              && (!Proceeds(event, old(toSaveLog)) ==> row == None && err == None && toSaveAttributes == old(toSaveAttributes))
              && (Proceeds(event, old(toSaveLog)) && o.None? ==>
                    row == None && err == Some(UnknownProperty("id")) && toSaveAttributes == old(toSaveAttributes))
              && (Proceeds(event, old(toSaveLog)) && o.Some? ==>
                    row == Some(o.value.1) && toSaveAttributes == o.value.0 && err == (if logSaved then None else Some(LogNotSaved)))
      ensures toSaveLog == old(toSaveLog) && changedAttributes == old(changedAttributes) && logClass == old(logClass)
    {
      if !event.AfterSave? || event.changedAttributes.None? || !toSaveLog {
        return None, None;
      }
      var id := ReadProperty(owner.State(), "id");
      if id.None? {
        return None, Some(UnknownProperty("id"));
      }
      toSaveAttributes := toSaveAttributes[cfg.docId := id.value];
      toSaveAttributes := toSaveAttributes - {"id"};
      toSaveAttributes := toSaveAttributes[cfg.changedAttributesField := Str(BraceList(changedAttributes))];
      row := Some(map k | k in toSaveAttributes && k in logColumns :: toSaveAttributes[k]);
      err := if logSaved then None else Some(LogNotSaved);
    }
  }

  /** The after-save handlers go on only for an `AfterSaveEvent` with a
      changed-attributes array, after a save that logged a change. */
  predicate Proceeds(event: AfterEvent, toSaveLog: bool) {
    event.AfterSave? && event.changedAttributes.Some? && toSaveLog
  }

  /** The updated to-save map and the log row, or nothing when the owner
      has no `id` property. */
  function AfterSaveRow(c: Config, s: RecordState, toSave: map<string, Value>, changed: seq<string>, logColumns: set<string>)
    : Option<(map<string, Value>, map<string, Value>)>
  {
    match ReadProperty(s, "id")
    case None => None
    case Some(id) =>
      var m := (toSave[c.docId := id] - {"id"})[c.changedAttributesField := Str(BraceList(changed))];
      Some((m, map k | k in m && k in logColumns :: m[k]))
  }

  /** The log row: only log-table columns; the owner's id under `docId`;
      no `id` key; the changed list as a brace literal; every other logged
      value unchanged. */
  lemma AfterSaveRowContents(c: Config, s: RecordState, toSave: map<string, Value>, changed: seq<string>, logColumns: set<string>)
    requires ReadProperty(s, "id").Some?
    requires c.docId != "id" && c.changedAttributesField != "id" && c.docId != c.changedAttributesField
    ensures var row := AfterSaveRow(c, s, toSave, changed, logColumns).value.1;
            && row.Keys <= logColumns
            && "id" !in row
            && (c.docId in logColumns ==> row[c.docId] == ReadProperty(s, "id").value)
            && (c.changedAttributesField in logColumns ==> row[c.changedAttributesField] == Str(BraceList(changed)))
            && (forall k :: k in toSave && k in logColumns && k != "id" && k != c.docId && k != c.changedAttributesField ==>
                  k in row && row[k] == toSave[k])
  {
  }

  // ----- the changed list as the source keeps it -----

  /** The changed list of a save as the source computes it: the loop
      appends to whatever the field held from earlier saves, because the
      field is never emptied. */
  function SaveTallyAsWritten(c: Config, s: RecordState, toSave0: map<string, Value>, prior: seq<string>,
                              results: string -> Value): (t: Tally)
    ensures |prior| <= |t.changed| && t.changed[..|prior|] == prior
  {
    TallyGrows(c.logAttributes, s, c.timeField, results, Tally(toSave0, prior, false), |c.logAttributes|);
    TallyUpTo(c.logAttributes, s, c.timeField, results, Tally(toSave0, prior, false), |c.logAttributes|)
  }

  /** As written, a save's changed list is the previous saves' list
      followed by this save's changes. */
  lemma AsWrittenAccumulates(c: Config, s: RecordState, toSave0: map<string, Value>, prior: seq<string>,
                             results: string -> Value)
    ensures SaveTallyAsWritten(c, s, toSave0, prior, results).changed == prior + SaveTally(c, s, toSave0, results).changed
  {
    TallyCarries(c.logAttributes, s, c.timeField, results, toSave0, prior, |c.logAttributes|);
  }

  lemma {:induction false} TallyCarries(entries: seq<LogAttribute>, s: RecordState, timeField: string,
                                        results: string -> Value, toSave0: map<string, Value>, prior: seq<string>, i: nat)
    requires i <= |entries|
    ensures var clean := TallyUpTo(entries, s, timeField, results, Tally(toSave0, [], false), i);
            TallyUpTo(entries, s, timeField, results, Tally(toSave0, prior, false), i) == clean.(changed := prior + clean.changed)
    decreases i
  {
    if i > 0 {
      TallyCarries(entries, s, timeField, results, toSave0, prior, i - 1);
      var clean := TallyUpTo(entries, s, timeField, results, Tally(toSave0, [], false), i - 1);
      assert prior + (clean.changed + [EntryName(entries[i - 1])]) == (prior + clean.changed) + [EntryName(entries[i - 1])];
    }
  }

  /** A record whose first save changed `a` and whose second save changes
      only `b`: as written, the second log row names both `a` and `b`;
      the corrected tally names only `b`. */
  lemma ChangedListAccumulates()
    ensures var c := DefaultConfig([Named("a"), Named("b")], None);
            var second := RecordState(["a", "b"], map["a" := Int(1), "b" := Int(2)], map["a" := Int(1), "b" := Int(1)], false, ["id"]);
            var results := (k: string) => Null;
            && SaveTallyAsWritten(c, second, map[], ["a"], results).changed == ["a", "b"]
            && SaveTally(c, second, map[], results).changed == ["b"]
  {
    var c := DefaultConfig([Named("a"), Named("b")], None);
    var second := RecordState(["a", "b"], map["a" := Int(1), "b" := Int(2)], map["a" := Int(1), "b" := Int(1)], false, ["id"]);
    var results := (k: string) => Null;
    assert !IsChange(Named("a"), second, "atime", results);
    assert IsChange(Named("b"), second, "atime", results);
    assert TallyUpTo(c.logAttributes, second, "atime", results, Tally(map[], [], false), 1).changed == [];
    AsWrittenAccumulates(c, second, map[], ["a"], results);
  }

  /** Some entry among the first `i` is a change of attribute `n`. */
  predicate ChangedAt(entries: seq<LogAttribute>, s: RecordState, timeField: string, results: string -> Value, i: nat, n: string)
    requires i <= |entries|
  {
    exists k :: 0 <= k < i && IsChange(entries[k], s, timeField, results) && EntryName(entries[k]) == n
  }

  /** Every name the corrected tally lists is the name of a changed entry. */
  lemma {:induction false} TallyListed(entries: seq<LogAttribute>, s: RecordState, timeField: string,
                                       results: string -> Value, toSave0: map<string, Value>, i: nat)
    requires i <= |entries|
    ensures forall j :: 0 <= j < |TallyUpTo(entries, s, timeField, results, Tally(toSave0, [], false), i).changed| ==>
              ChangedAt(entries, s, timeField, results, i, TallyUpTo(entries, s, timeField, results, Tally(toSave0, [], false), i).changed[j])
    decreases i
  {
    if i > 0 {
      TallyListed(entries, s, timeField, results, toSave0, i - 1);
      var p := TallyUpTo(entries, s, timeField, results, Tally(toSave0, [], false), i - 1);
      var t := TallyUpTo(entries, s, timeField, results, Tally(toSave0, [], false), i);
      forall j | 0 <= j < |t.changed|
        ensures ChangedAt(entries, s, timeField, results, i, t.changed[j])
      {
        if j < |p.changed| {
          assert ChangedAt(entries, s, timeField, results, i - 1, p.changed[j]);
          var k :| 0 <= k < i - 1 && IsChange(entries[k], s, timeField, results) && EntryName(entries[k]) == p.changed[j];
          assert t.changed[j] == p.changed[j];
        } else {
          assert IsChange(entries[i - 1], s, timeField, results) && t.changed[j] == EntryName(entries[i - 1]);
        }
      }
    }
  }
}
