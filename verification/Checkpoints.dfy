/**
 The checkpoint files of `app/backtest/research_checkpoints.py`: a completed unit
 is a payload and a manifest, replaced one after the other, in a directory named
 by the run id alone.  A process may stop between any two file operations.

 Hashes are taken to be injective, so a file is named by its unit.
 */
module Checkpoints {
  import opened Market

  datatype Identity = Identity(runId: string, fields: map<string, string>)

  /** A configured process.  Only its identity is written to disk. */
  datatype Config = Config(identity: Identity, baselineIterations: int)

  datatype Unit = Unit(phase: string, parameters: map<string, string>)

  datatype FileName = FileName(runId: string, unit: Unit)

  datatype Mode = NewRun | Resume | Restart

  /** The two kinds of file; a manifest names an identity and its unit. */
  datatype Disk<+V> = Disk(payloads: map<FileName, V>, manifests: map<FileName, Identity>)

  function NameFor(id: Identity, unit: Unit): FileName { FileName(id.runId, unit) }

  /** What a resumed process of this identity reads. */
  function Loaded<V>(disk: Disk<V>, id: Identity, unit: Unit): Option<V> {
    var name := NameFor(id, unit);
    if name in disk.manifests && name in disk.payloads && disk.manifests[name] == id
    then Some(disk.payloads[name]) else None
  }

  function WithPayload<V>(disk: Disk<V>, id: Identity, unit: Unit, value: V): Disk<V> {
    disk.(payloads := disk.payloads[NameFor(id, unit) := value])
  }

  function WithManifest<V>(disk: Disk<V>, id: Identity, unit: Unit): Disk<V> {
    disk.(manifests := disk.manifests[NameFor(id, unit) := id])
  }

  // -------------------------------------------------------------- the protocol

  /** The running process; `half` is a unit whose payload is replaced but not yet its manifest. */
  datatype Process = Process(config: Config, mode: Mode, half: Option<Unit>)

  datatype Machine<+V> = Machine(disk: Disk<V>, process: Option<Process>)

  datatype Action =
    | Start(config: Config, mode: Mode)
    | UnlinkPayload(unit: Unit)
    | UnlinkManifest(unit: Unit)
    | Wiped
    | PutPayload(unit: Unit)
    | PutManifest

  predicate EmptyRun<V>(disk: Disk<V>, runId: string) {
    && (forall name <- disk.payloads :: name.runId != runId)
    && (forall name <- disk.manifests :: name.runId != runId)
  }

  /** A process saves a unit it has not been able to load. */
  predicate Saves<V>(disk: Disk<V>, p: Process, unit: Unit) {
    p.half.None? && (p.mode.NewRun? || (p.mode.Resume? && Loaded(disk, p.config.identity, unit).None?))
  }

  /** One atomic step.  Starting a process ends the one before it, wherever it was; other disabled actions do nothing. */
  function Next<V>(compute: (Config, Unit) -> V, m: Machine<V>, a: Action): Machine<V> {
    if a.Start? then m.(process := Some(Process(a.config, a.mode, None)))
    else if m.process.None? then m
    else
      var p, disk := m.process.value, m.disk;
      var id := p.config.identity;
      match a
      case UnlinkPayload(unit) =>
        if p.mode.Restart? then m.(disk := disk.(payloads := disk.payloads - {NameFor(id, unit)})) else m
      case UnlinkManifest(unit) =>
        if p.mode.Restart? then m.(disk := disk.(manifests := disk.manifests - {NameFor(id, unit)})) else m
      case Wiped =>
        if p.mode.Restart? && EmptyRun(disk, id.runId) then m.(process := Some(p.(mode := NewRun))) else m
      case PutPayload(unit) =>
        if Saves(disk, p, unit)
        then Machine(WithPayload(disk, id, unit, compute(p.config, unit)), Some(p.(half := Some(unit))))
        else m
      case PutManifest =>
        if p.half.Some? then Machine(WithManifest(disk, id, p.half.value), Some(p.(half := None))) else m
  }

  function After<V>(compute: (Config, Unit) -> V, actions: seq<Action>): Machine<V>
    decreases |actions|
  {
    if actions == [] then Machine(Disk(map[], map[]), None)
    else Next(compute, After(compute, actions[..|actions| - 1]), actions[|actions| - 1])
  }

  ghost predicate Uses(actions: seq<Action>, configs: iset<Config>) {
    forall i :: 0 <= i < |actions| && actions[i].Start? ==> actions[i].config in configs
  }

  /** Never the wrong value: every load gives nothing or what the loading process would compute. */
  ghost predicate LoadsAreExact<V>(compute: (Config, Unit) -> V, disk: Disk<V>, configs: iset<Config>) {
    forall c <- configs, unit :: Loaded(disk, c.identity, unit).Some? ==>
      Loaded(disk, c.identity, unit).value == compute(c, unit)
  }

  ghost predicate CrashSafe<V>(compute: (Config, Unit) -> V, configs: iset<Config>) {
    forall actions: seq<Action> :: Uses(actions, configs) ==> LoadsAreExact(compute, After(compute, actions).disk, configs)
  }

  /** Processes that share a run directory compute the same values. */
  ghost predicate RunIdDecides<V>(compute: (Config, Unit) -> V, configs: iset<Config>) {
    forall a <- configs, b <- configs, unit :: a.identity.runId == b.identity.runId ==> compute(a, unit) == compute(b, unit)
  }

  /** Every payload was computed by a process of its directory. */
  ghost predicate OwnPayloads<V>(compute: (Config, Unit) -> V, m: Machine<V>, configs: iset<Config>) {
    && (m.process.Some? ==> m.process.value.config in configs)
    && forall name <- m.disk.payloads ::
         exists c <- configs :: c.identity.runId == name.runId && m.disk.payloads[name] == compute(c, name.unit)
  }

  lemma {:induction false} PayloadsStayOwn<V>(compute: (Config, Unit) -> V, actions: seq<Action>, configs: iset<Config>)
    requires Uses(actions, configs)
    ensures OwnPayloads(compute, After(compute, actions), configs)
    decreases |actions|
  {
    if actions != [] {
      var n := |actions| - 1;
      PayloadsStayOwn(compute, actions[..n], configs);
      var m := After(compute, actions[..n]);
      if actions[n].PutPayload? && m.process.Some? && Saves(m.disk, m.process.value, actions[n].unit) {
        assert m.process.value.config in configs;
      }
    }
  }

  /**
   Crash safety, exactly: with processes stopped and restarted at any file
   operation, loads are exact if and only if processes sharing a run id compute
   the same values.
   */
  lemma CrashSafety<V>(compute: (Config, Unit) -> V, configs: iset<Config>)
    ensures CrashSafe(compute, configs) <==> RunIdDecides(compute, configs)
  {
    if RunIdDecides(compute, configs) {
      forall actions | Uses(actions, configs) ensures LoadsAreExact(compute, After(compute, actions).disk, configs) {
        PayloadsStayOwn(compute, actions, configs);
      }
    } else {
      var a, b, unit :| a in configs && b in configs && a.identity.runId == b.identity.runId
        && compute(a, unit) != compute(b, unit);
      var actions := StoppedHalfway(compute, a, b, unit);
      assert !LoadsAreExact(compute, After(compute, actions).disk, configs);
    }
  }

  /**
   The failing run.  `a` completes a unit; `b` shares its directory.  If they also
   share the identity, `b` loads the value of `a`; if not, `b` recomputes, stops
   between the two files, and a resumed `a` loads the value of `b`.
   */
  lemma StoppedHalfway<V>(compute: (Config, Unit) -> V, a: Config, b: Config, unit: Unit) returns (actions: seq<Action>)
    requires a.identity.runId == b.identity.runId && compute(a, unit) != compute(b, unit)
    ensures Uses(actions, iset{a, b})
    ensures !LoadsAreExact(compute, After(compute, actions).disk, iset{a, b})
    ensures forall i :: 0 <= i < |actions| && actions[i].Start? ==> actions[i].config == a || actions[i].config == b
  {
    var whole := [Start(a, Resume), PutPayload(unit), PutManifest];
    var m := WholeSave(compute, a, unit);
    if a.identity == b.identity {
      actions := whole;
      assert Loaded(m.disk, b.identity, unit) == Some(compute(a, unit));
    } else {
      actions := whole + [Start(b, Resume), PutPayload(unit)];
      assert actions[..4][..3] == whole;
      assert actions[..4] == whole + [Start(b, Resume)];
      assert After(compute, actions[..4]) == m.(process := Some(Process(b, Resume, None)));
      assert Loaded(After(compute, actions).disk, a.identity, unit) == Some(compute(b, unit));
    }
  }

  lemma WholeSave<V>(compute: (Config, Unit) -> V, c: Config, unit: Unit) returns (m: Machine<V>)
    ensures m == After(compute, [Start(c, Resume), PutPayload(unit), PutManifest])
    ensures m.disk == WithManifest(WithPayload(Disk(map[], map[]), c.identity, unit, compute(c, unit)), c.identity, unit)
  {
    var actions := [Start(c, Resume), PutPayload(unit), PutManifest];
    m := After(compute, actions);
    assert actions[..2][..1] == [Start(c, Resume)] && actions[..2][..1][..0] == [];
    assert After(compute, actions[..2][..1]) == Machine(Disk(map[], map[]), Some(Process(c, Resume, None)));
  }

  // ------------------------------------------- when no process stops halfway

  /** No process ends between the two files of a save. */
  ghost predicate Tidy<V>(compute: (Config, Unit) -> V, actions: seq<Action>) {
    forall k :: 0 <= k <= |actions| && (k == |actions| || actions[k].Start?) ==>
      var p := After(compute, actions[..k]).process;
      p.Some? ==> p.value.half.None?
  }

  ghost predicate SafeWhenTidy<V>(compute: (Config, Unit) -> V, configs: iset<Config>) {
    forall actions: seq<Action> :: Uses(actions, configs) && Tidy(compute, actions) ==>
      LoadsAreExact(compute, After(compute, actions).disk, configs)
  }

  ghost predicate IdentityDecides<V>(compute: (Config, Unit) -> V, configs: iset<Config>) {
    forall a <- configs, b <- configs, unit :: a.identity == b.identity ==> compute(a, unit) == compute(b, unit)
  }

  /** Every complete pair of files, other than the one being written, was made by one process. */
  ghost predicate Paired<V>(compute: (Config, Unit) -> V, m: Machine<V>, configs: iset<Config>) {
    && (m.process.Some? ==> m.process.value.config in configs)
    && (m.process.Some? && m.process.value.half.Some? ==>
          var p := m.process.value;
          var name := NameFor(p.config.identity, p.half.value);
          && !p.mode.Restart?
          && name in m.disk.payloads && m.disk.payloads[name] == compute(p.config, name.unit))
    && forall name :: name in m.disk.payloads && name in m.disk.manifests && !HalfWritten(m, name) ==>
         MadeBy(compute, m.disk.payloads[name], m.disk.manifests[name], name.unit, configs)
  }

  predicate HalfWritten<V>(m: Machine<V>, name: FileName) {
    m.process.Some? && m.process.value.half.Some?
    && name == NameFor(m.process.value.config.identity, m.process.value.half.value)
  }

  ghost predicate MadeBy<V>(compute: (Config, Unit) -> V, value: V, id: Identity, unit: Unit, configs: iset<Config>) {
    exists c <- configs :: c.identity == id && value == compute(c, unit)
  }

  /** The previous process, if there is one, is not between two files. */
  predicate AtRest<V>(m: Machine<V>) {
    m.process.Some? ==> m.process.value.half.None?
  }

  lemma PairedStep<V>(compute: (Config, Unit) -> V, m: Machine<V>, a: Action, configs: iset<Config>)
    requires Paired(compute, m, configs)
    requires a.Start? ==> a.config in configs && AtRest(m)
    ensures Paired(compute, Next(compute, m, a), configs)
  {
    hide MadeBy;
    if a.PutManifest? && m.process.Some? && m.process.value.half.Some? {
      var p := m.process.value;
      var name := NameFor(p.config.identity, p.half.value);
      assert MadeBy(compute, m.disk.payloads[name], p.config.identity, name.unit, configs) by {
        MadeByProcess(compute, p.config, name.unit, configs);
      }
    }
  }

  lemma MadeByProcess<V>(compute: (Config, Unit) -> V, c: Config, unit: Unit, configs: iset<Config>)
    requires c in configs
    ensures MadeBy(compute, compute(c, unit), c.identity, unit, configs)
  {
  }

  lemma {:induction false} StaysPaired<V>(compute: (Config, Unit) -> V, actions: seq<Action>, n: nat, configs: iset<Config>)
    requires Uses(actions, configs) && Tidy(compute, actions) && n <= |actions|
    ensures Paired(compute, After(compute, actions[..n]), configs)
  {
    hide Next, MadeBy;
    if n > 0 {
      StaysPaired(compute, actions, n - 1, configs);
      assert actions[..n][..n - 1] == actions[..n - 1];
      PairedStep(compute, After(compute, actions[..n - 1]), actions[n - 1], configs);
    }
  }

  /**
   The manifest does its work when saves complete: without a stop between the two
   files, loads are exact if and only if processes of one identity compute the
   same values.
   */
  lemma TidySafety<V>(compute: (Config, Unit) -> V, configs: iset<Config>)
    ensures SafeWhenTidy(compute, configs) <==> IdentityDecides(compute, configs)
  {
    if IdentityDecides(compute, configs) {
      forall actions | Uses(actions, configs) && Tidy(compute, actions)
        ensures LoadsAreExact(compute, After(compute, actions).disk, configs)
      {
        StaysPaired(compute, actions, |actions|, configs);
        assert actions[..|actions|] == actions;
        assert AtRest(After(compute, actions));
      }
    } else {
      var a, b, unit :| a in configs && b in configs && a.identity == b.identity && compute(a, unit) != compute(b, unit);
      var m := WholeSave(compute, a, unit);
      var actions := [Start(a, Resume), PutPayload(unit), PutManifest];
      assert actions[..0] == [] && actions[..3] == actions;
      assert Loaded(m.disk, b.identity, unit) == Some(compute(a, unit));
    }
  }

  // ------------------------------------------------------------------ the store

  datatype File = PayloadOf(name: FileName) | ManifestOf(name: FileName)

  function FilesOf<V>(disk: Disk<V>, runId: string): set<File> {
    (set name | name in disk.payloads && name.runId == runId :: PayloadOf(name))
    + (set name | name in disk.manifests && name.runId == runId :: ManifestOf(name))
  }

  ghost predicate SameElsewhere<V>(a: Disk<V>, b: Disk<V>, runId: string) {
    forall name: FileName :: name.runId != runId ==>
      && (name in b.payloads <==> name in a.payloads)
      && (name in b.payloads ==> b.payloads[name] == a.payloads[name])
      && (name in b.manifests <==> name in a.manifests)
      && (name in b.manifests ==> b.manifests[name] == a.manifests[name])
  }

  /** The directory of one run is empty and every other file is untouched. */
  ghost predicate OnlyWiped<V>(a: Disk<V>, b: Disk<V>, runId: string) {
    EmptyRun(b, runId) && SameElsewhere(a, b, runId)
  }

  function Unlinked<V>(disk: Disk<V>, file: File): Disk<V> {
    match file
    case PayloadOf(name) => disk.(payloads := disk.payloads - {name})
    case ManifestOf(name) => disk.(manifests := disk.manifests - {name})
  }

  lemma NothingChanged<V>(disk: Disk<V>, runId: string)
    ensures SameElsewhere(disk, disk, runId)
  {
  }

  lemma UnlinkOne<V>(start: Disk<V>, disk: Disk<V>, file: File, runId: string)
    requires file in FilesOf(disk, runId) && SameElsewhere(start, disk, runId)
    ensures FilesOf(Unlinked(disk, file), runId) == FilesOf(disk, runId) - {file}
    ensures SameElsewhere(start, Unlinked(disk, file), runId)
  {
  }

  lemma NothingListed<V>(disk: Disk<V>, runId: string)
    requires FilesOf(disk, runId) == {}
    ensures EmptyRun(disk, runId)
  {
    forall name | name in disk.payloads ensures name.runId != runId {
      assert name.runId == runId ==> PayloadOf(name) in FilesOf(disk, runId);
    }
    forall name | name in disk.manifests ensures name.runId != runId {
      assert name.runId == runId ==> ManifestOf(name) in FilesOf(disk, runId);
    }
  }

  class Directory<V> {
    var payloads: map<FileName, V>
    var manifests: map<FileName, Identity>

    function Value(): Disk<V>
      reads this
    {
      Disk(payloads, manifests)
    }
  }

  class ResearchCheckpointStore<V> {
    const directory: Directory<V>
    const identity: Identity
    const resume: bool

    /** Opening for a restart first unlinks every file of the run, in any order. */
    constructor (directory: Directory<V>, identity: Identity, mode: Mode)
      modifies directory
      ensures this.directory == directory && this.identity == identity && resume == mode.Resume?
      ensures if mode.Restart? then OnlyWiped(old(directory.Value()), directory.Value(), identity.runId)
              else directory.Value() == old(directory.Value())
    {
      this.directory, this.identity := directory, identity;
      resume := mode.Resume?;
      new;
      hide FilesOf, SameElsewhere, EmptyRun;
      if mode.Restart? {
        var files := FilesOf(directory.Value(), identity.runId);
        NothingChanged(directory.Value(), identity.runId);
        while files != {}
          invariant files == FilesOf(directory.Value(), identity.runId)
          invariant SameElsewhere(old(directory.Value()), directory.Value(), identity.runId)
        {
          var file :| file in files;
          UnlinkOne(old(directory.Value()), directory.Value(), file, identity.runId);
          match file {
            case PayloadOf(name) => directory.payloads := directory.payloads - {name};
            case ManifestOf(name) => directory.manifests := directory.manifests - {name};
          }
          files := files - {file};
        }
        NothingListed(directory.Value(), identity.runId);
      }
    }

    method Load(unit: Unit) returns (r: Option<V>)
      ensures r == if resume then Loaded(directory.Value(), identity, unit) else None
    {
      if !resume {
        return None;
      }
      var name := NameFor(identity, unit);
      if name !in directory.manifests || name !in directory.payloads {
        return None;
      }
      if directory.manifests[name] != identity {
        return None;
      }
      return Some(directory.payloads[name]);
    }

    /** Payload first, then manifest. */
    method Save(unit: Unit, value: V)
      modifies directory
      ensures directory.Value() == WithManifest(WithPayload(old(directory.Value()), identity, unit, value), identity, unit)
    {
      var name := NameFor(identity, unit);
      directory.payloads := directory.payloads[name := value];
      directory.manifests := directory.manifests[name := identity];
    }
  }

  /** A completed save is what the same identity loads, and no other load changes. */
  lemma SaveIsLoaded<V>(disk: Disk<V>, id: Identity, unit: Unit, value: V)
    ensures var after := WithManifest(WithPayload(disk, id, unit, value), id, unit);
            && Loaded(after, id, unit) == Some(value)
            && forall other: Identity, u: Unit :: NameFor(other, u) != NameFor(id, unit) ==>
                 Loaded(after, other, u) == Loaded(disk, other, u)
  {
  }
}
