/** Applying the first-boot setup once, and publishing it atomically. */
module FirstBoot {
  import opened Wrappers
  import opened InstallerDomain
  import opened JobStorage
  import opened FirstBootFile

  datatype Entry = Absent | File(text: string) | Irregular

  datatype StateStep = Inspect | Create | Restrict | Write | Publish

  datatype FirstBootError =
    | InvalidValue(field: SettingsField)
    | InvalidPassword
    | InvalidStatePath
    | StateIo(step: StateStep)
    | AlreadyComplete
    | BackendFailed

  /** Which file operations succeed; `removed` is the clean-up after a failure. */
  datatype Luck = Luck(inspect: bool, create: bool, restrict: bool, write: bool, publish: bool, removed: bool, partial: string)

  /** The state directory: the published file, and temporary files by process id. */
  datatype Directory = Directory(target: Entry, temps: map<nat, string>) {
    function Complete(inspect: bool): Result<bool, FirstBootError> {
      if !inspect then Err(StateIo(Inspect))
      else if target.Irregular? then Err(InvalidStatePath)
      else Ok(target.File?)
    }

    /** A failed commit leaves at most its temporary file. */
    function LeftWith(pid: nat, luck: Luck): Directory {
      if luck.removed then this.(temps := temps - {pid}) else this.(temps := temps[pid := luck.partial])
    }

    function Commit(pid: nat, config: SetupConfig, luck: Luck): (Directory, Result<(), FirstBootError>) {
      if config.Fault().Some? then (this, Err(InvalidValue(config.Fault().value)))
      else
        match Complete(luck.inspect)
        case Err(e) => (this, Err(e))
        case Ok(done) =>
          if done then (this, Err(AlreadyComplete))
          else if !luck.create || pid in temps then (this, Err(StateIo(Create)))
          else if !luck.restrict then (LeftWith(pid, luck), Err(StateIo(Restrict)))
          else if !luck.write then (LeftWith(pid, luck), Err(StateIo(Write)))
          else if !luck.publish then (LeftWith(pid, luck), Err(StateIo(Publish)))
          else (this.(target := File(config.Encode())), Ok(()))
    }
  }

  predicate ValidPassword(password: seq<Byte>) {
    && 8 <= |password| <= 1024
    && forall i :: 0 <= i < |password| ==> password[i] != 0 && password[i] != 10 && password[i] != 13
  }

  /** The directory and the configurations the backend has applied. */
  datatype Setup = Setup(directory: Directory, applied: seq<SetupConfig>) {
    /** `first` is whether the coordinator's own inspection succeeds. */
    function Apply(pid: nat, config: SetupConfig, password: seq<Byte>, first: bool, backend: bool, luck: Luck)
      : (Setup, Result<(), FirstBootError>)
    {
      if config.Fault().Some? then (this, Err(InvalidValue(config.Fault().value)))
      else if !ValidPassword(password) then (this, Err(InvalidPassword))
      else
        match directory.Complete(first)
        case Err(e) => (this, Err(e))
        case Ok(done) =>
          if done then (this, Err(AlreadyComplete))
          else if !backend then (this, Err(BackendFailed))
          else
            var committed := directory.Commit(pid, config, luck);
            (Setup(committed.0, applied + [config]), committed.1)
    }

    /** The process dies inside the commit, after `partial` of the temporary file and before the rename. */
    function DieCommitting(pid: nat, config: SetupConfig, password: seq<Byte>, partial: string): Setup {
      if config.Valid() && ValidPassword(password) && directory.target.Absent? && pid !in directory.temps then
        Setup(directory.(temps := directory.temps[pid := partial]), applied + [config])
      else this
    }
  }

  datatype Label =
    | Applying(pid: nat, config: SetupConfig, password: seq<Byte>, first: bool, backend: bool, luck: Luck)
    | Dying(pid: nat, config: SetupConfig, password: seq<Byte>, partial: string)

  function Step(s: Setup, l: Label): Setup {
    match l
    case Applying(pid, config, password, first, backend, luck) => s.Apply(pid, config, password, first, backend, luck).0
    case Dying(pid, config, password, partial) => s.DieCommitting(pid, config, password, partial)
  }

  function Run(s: Setup, labels: seq<Label>): Setup
    decreases labels
  {
    if labels == [] then s else Run(Step(s, labels[0]), labels[1..])
  }

  // ---------------------------------------------------------------------
  // What every run guarantees
  // ---------------------------------------------------------------------

  /** The file is the whole text of a valid configuration the backend has applied, and reads back as it. */
  predicate Holds(s: Setup, c: SetupConfig) {
    c in s.applied && c.Valid() && s.directory.target == File(c.Encode()) && Decode(c.Encode()) == Some(c)
  }

  /** Success publishes the whole text after the backend has applied it; failure publishes nothing. */
  lemma ApplyPublishesOrNot(s: Setup, pid: nat, config: SetupConfig, password: seq<Byte>, first: bool, backend: bool, luck: Luck)
    ensures var (t, r) := s.Apply(pid, config, password, first, backend, luck);
      && (r.Ok? ==> config.Valid() && ValidPassword(password) && s.directory.target.Absent?)
      && (r.Ok? ==> Holds(t, config) && t.applied == s.applied + [config])
      && (r.Err? ==> t.directory.target == s.directory.target)
      && (t.applied != s.applied ==> t.applied == s.applied + [config] && config.Valid() && s.directory.target.Absent?)
  {
    if config.Valid() { EncodedConfigIsRead(config); }
  }

  /** Every file operation of a commit works, and no temporary file is in the way. */
  predicate Fine(d: Directory, pid: nat, luck: Luck) {
    luck.inspect && luck.create && luck.restrict && luck.write && luck.publish && pid !in d.temps
  }

  /** The inputs are acceptable and the coordinator sees that nothing is published yet. */
  predicate Asks(s: Setup, config: SetupConfig, password: seq<Byte>, first: bool) {
    config.Valid() && ValidPassword(password) && first && s.directory.target.Absent?
  }

  /**
   * Setup succeeds exactly if it is asked for, the backend succeeds and every file operation
   * works. The backend counts as having applied a configuration exactly if it was asked and
   * succeeded, and its failure is reported and changes nothing.
   */
  lemma ApplySucceedsExactly(s: Setup, pid: nat, config: SetupConfig, password: seq<Byte>, first: bool, backend: bool, luck: Luck)
    ensures var (t, r) := s.Apply(pid, config, password, first, backend, luck);
      && (r.Ok? <==> Asks(s, config, password, first) && backend && Fine(s.directory, pid, luck))
      && t.applied == (if Asks(s, config, password, first) && backend then s.applied + [config] else s.applied)
      && (Asks(s, config, password, first) && !backend ==> t == s && r == Err(BackendFailed))
      && (!Asks(s, config, password, first) ==> t == s && r.Err? && r.error != BackendFailed)
      && (r.Ok? ==> t.directory == s.directory.(target := File(config.Encode())))
  {
  }

  /** What is refused, and with which error, in the order of the checks. */
  lemma ApplyRefusesExactly(s: Setup, pid: nat, config: SetupConfig, password: seq<Byte>, first: bool, backend: bool, luck: Luck)
    ensures var (t, r) := s.Apply(pid, config, password, first, backend, luck);
      && (config.Fault().Some? ==> r == Err(InvalidValue(config.Fault().value)))
      && (config.Valid() && !ValidPassword(password) ==> r == Err(InvalidPassword))
      && (config.Valid() && ValidPassword(password) ==>
        && (!first ==> r == Err(StateIo(Inspect)))
        && (first && s.directory.target.Irregular? ==> r == Err(InvalidStatePath))
        && (first && s.directory.target.File? ==> r == Err(AlreadyComplete)))
  {
  }

  /** A failed commit keeps what is published and leaves at most its own temporary file, and none when it could clean up. */
  lemma FailedCommitLeavesLittle(d: Directory, pid: nat, config: SetupConfig, luck: Luck)
    ensures var (e, r) := d.Commit(pid, config, luck);
      && (r.Ok? <==> config.Valid() && d.target.Absent? && Fine(d, pid, luck))
      && (r.Ok? ==> e == d.(target := File(config.Encode())))
      && (r.Err? ==> e.target == d.target && e.temps - {pid} == d.temps - {pid})
      && (r.Err? && luck.removed && pid !in d.temps ==> e == d)
  {
  }

  /** The published file is what it was at the start, or the whole text of a configuration applied since. */
  predicate Published(start: Entry, s: Setup) {
    || s.directory.target == start
    || exists i :: 0 <= i < |s.applied| && s.applied[i].Valid() && s.directory.target == File(s.applied[i].Encode())
  }

  lemma StepKeepsPublished(start: Entry, s: Setup, l: Label)
    requires Published(start, s)
    ensures Published(start, Step(s, l))
  {
    var t := Step(s, l);
    if t.directory.target != s.directory.target {
      assert t.applied[|s.applied|] == l.config;
    } else if i :| 0 <= i < |s.applied| && s.applied[i].Valid() && s.directory.target == File(s.applied[i].Encode()) {
      assert t.applied[i] == s.applied[i];
    }
  }

  /** Through failures, crashes and retries a reader finds no file or a whole one that reads back. */
  lemma {:induction false} ReadersSeeNothingOrAll(start: Entry, s: Setup, labels: seq<Label>)
    requires Published(start, s)
    ensures var t := Run(s, labels);
      || t.directory.target == start
      || exists c: SetupConfig :: Holds(t, c)
    decreases labels
  {
    if labels == [] {
      if i :| 0 <= i < |s.applied| && s.applied[i].Valid() && s.directory.target == File(s.applied[i].Encode()) {
        EncodedConfigIsRead(s.applied[i]);
        assert Holds(s, s.applied[i]);
      }
    } else {
      StepKeepsPublished(start, s, labels[0]);
      ReadersSeeNothingOrAll(start, Step(s, labels[0]), labels[1..]);
    }
  }

  /** Once complete, the file never changes and the backend is never asked again. */
  lemma {:induction false} CompletionIsFinal(s: Setup, labels: seq<Label>)
    requires s.directory.target.File?
    ensures Run(s, labels).directory.target == s.directory.target && Run(s, labels).applied == s.applied
    decreases labels
  {
    if labels != [] { CompletionIsFinal(Step(s, labels[0]), labels[1..]); }
  }

  /** A system the installer configured keeps the installer's values, whatever first boot is asked. */
  lemma InstalledSystemsStayConfigured(settings: InstallSettings, temps: map<nat, string>, labels: seq<Label>)
    requires settings.Fault().None?
    ensures var t := Run(Setup(Directory(File(Marker(settings)), temps), []), labels);
      && t.directory.target.File? && Decode(t.directory.target.text) == Some(AsSetup(settings))
      && t.applied == []
  {
    MarkerIsRead(settings);
    CompletionIsFinal(Setup(Directory(File(Marker(settings)), temps), []), labels);
  }

  // ---------------------------------------------------------------------
  // The store and the coordinator
  // ---------------------------------------------------------------------

  class FirstBootStore {
    var target: Entry
    var temps: map<nat, string>

    function Value(): Directory
      reads this
    {
      Directory(target, temps)
    }

    constructor (directory: Directory)
      ensures Value() == directory
    {
      target, temps := directory.target, directory.temps;
    }

    method IsComplete(inspect: bool) returns (r: Result<bool, FirstBootError>)
      ensures r == Value().Complete(inspect)
    {
      if !inspect { return Err(StateIo(Inspect)); }
      match target
      case File(_) => return Ok(true);
      case Irregular => return Err(InvalidStatePath);
      case Absent => return Ok(false);
    }

    method CleanUp(pid: nat, removed: bool)
      modifies this`temps
      ensures temps == if removed then old(temps) - {pid} else old(temps)
    {
      if removed { temps := temps - {pid}; }
    }

    method Commit(pid: nat, config: SetupConfig, luck: Luck) returns (r: Result<(), FirstBootError>)
      modifies this
      ensures (Value(), r) == old(Value()).Commit(pid, config, luck)
    {
      if config.Fault().Some? { return Err(InvalidValue(config.Fault().value)); }
      var complete := IsComplete(luck.inspect);
      if complete.Err? { return Err(complete.error); }
      if complete.value { return Err(AlreadyComplete); }
      if !luck.create || pid in temps { return Err(StateIo(Create)); }
      ghost var before := temps;
      temps := temps[pid := luck.partial];
      assert temps - {pid} == before == before - {pid};
      if !luck.restrict { CleanUp(pid, luck.removed); return Err(StateIo(Restrict)); }
      if !luck.write { CleanUp(pid, luck.removed); return Err(StateIo(Write)); }
      if !luck.publish { CleanUp(pid, luck.removed); return Err(StateIo(Publish)); }
      target, temps := File(config.Encode()), temps - {pid};
      return Ok(());
    }
  }

  class FirstBootCoordinator {
    const store: FirstBootStore
    var applied: seq<SetupConfig>

    function Value(): Setup
      reads this, store
    {
      Setup(store.Value(), applied)
    }

    constructor (directory: Directory)
      ensures Value() == Setup(directory, []) && fresh(store)
    {
      store := new FirstBootStore(directory);
      applied := [];
    }

    method Apply(pid: nat, config: SetupConfig, password: seq<Byte>, first: bool, backend: bool, luck: Luck)
      returns (r: Result<(), FirstBootError>)
      modifies this, store
      ensures (Value(), r) == old(Value()).Apply(pid, config, password, first, backend, luck)
    {
      if config.Fault().Some? { return Err(InvalidValue(config.Fault().value)); }
      if !ValidPassword(password) { return Err(InvalidPassword); }
      var complete := store.IsComplete(first);
      if complete.Err? { return Err(complete.error); }
      if complete.value { return Err(AlreadyComplete); }
      if !backend { return Err(BackendFailed); }
      applied := applied + [config];
      r := store.Commit(pid, config, luck);
    }
  }
}
