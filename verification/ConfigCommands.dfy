/** The configuration object and the commands that change the stored file (config.go, config_helper.go). */
module ConfigCommands {
  import opened Wrappers
  import opened ConfigModel

  /** A configuration in memory, changed step by step. */
  class ConfigObject {
    var contexts: map<string, Context>
    var manifests: map<string, Manifest>
    var management: map<string, Management>
    var currentContext: string

    constructor Load(file: Config)
      ensures Data() == file
    {
      contexts, manifests := file.contexts, file.manifests;
      management, currentContext := file.management, file.currentContext;
    }

    function Data(): Config
      reads this
    {
      Config(contexts, manifests, management, currentContext)
    }

    method EnsureComplete() returns (err: Option<Failure>)
      ensures err == if Complete(Data()) then None else Some(NotComplete)
    {
      if |contexts| == 0 || |manifests| == 0 || currentContext == "" {
        return Some(NotComplete);
      }
      if currentContext !in contexts {
        return Some(NotComplete);
      }
      if contexts[currentContext].manifest !in manifests {
        return Some(NotComplete);
      }
      return None;
    }

    method AddContext(name: string, opts: seq<ContextOption>)
      modifies this`contexts
      ensures contexts == old(contexts)[name := ModifyContext(Context("", ""), opts)]
    {
      contexts := contexts[name := Context("", "")];
      ModifyContextEntry(name, opts);
    }

    method ModifyContextEntry(name: string, opts: seq<ContextOption>)
      requires name in contexts
      modifies this`contexts
      ensures contexts == old(contexts)[name := ModifyContext(old(contexts)[name], opts)]
    {
      for i := 0 to |opts|
        invariant name in contexts && contexts == old(contexts)[name := contexts[name]]
        invariant ModifyContext(old(contexts)[name], opts) == ModifyContext(contexts[name], opts[i..])
      {
        assert opts[i..][0] == opts[i] && opts[i..][1..] == opts[i + 1..];
        contexts := contexts[name := ApplyContext(contexts[name], opts[i])];
      }
    }

    method AddManagementConfig(name: string, opts: seq<ManagementOption>)
      modifies this`management
      ensures management == old(management)[name := ModifyManagement(NEW_MANAGEMENT, opts)]
    {
      management := management[name := NEW_MANAGEMENT];
      ModifyManagementConfig(name, opts);
    }

    method ModifyManagementConfig(name: string, opts: seq<ManagementOption>)
      requires name in management
      modifies this`management
      ensures management == old(management)[name := ModifyManagement(old(management)[name], opts)]
    {
      for i := 0 to |opts|
        invariant name in management && management == old(management)[name := management[name]]
        invariant ModifyManagement(old(management)[name], opts) == ModifyManagement(management[name], opts[i..])
      {
        assert opts[i..][0] == opts[i] && opts[i..][1..] == opts[i + 1..];
        management := management[name := ApplyManagement(management[name], opts[i])];
      }
    }

    /** How many of the three checkout values are set. */
    method CountSelected(c: Checkout) returns (count: nat)
      ensures count == Selected(c)
    {
      count := 0;
      var values := [c.commitHash, c.branch, c.tag];
      for i := 0 to 3
        invariant count == (if i > 0 then One(c.commitHash) else 0) + (if i > 1 then One(c.branch) else 0)
                           + (if i > 2 then One(c.tag) else 0)
      {
        if values[i] != "" {
          count := count + 1;
        }
      }
    }

    /** ModifyRepository on a stored repository, which keeps its changes when it fails. */
    method ModifyStoredRepository(name: string, o: ManifestOptions) returns (err: Option<Failure>)
      requires name in manifests && manifests[name].repositories.Some?
      requires o.repoName in manifests[name].repositories.value
      modifies this`manifests
      ensures
        var m := old(manifests)[name];
        var r := ModifyRepository(m.repositories.value[o.repoName], o);
        && err == r.error
        && manifests == old(manifests)[name := m.(repositories := Some(m.repositories.value[o.repoName := r.value]))]
    {
      hide Selected;
      var m := manifests[name];
      var r := m.repositories.value[o.repoName];
      if o.url != "" {
        r := r.(url := o.url);
      }
      if r.checkout.None? {
        err := Some(Crash);
      } else {
        var c := r.checkout.value;
        if o.branch != "" { c := c.(branch := o.branch); }
        if o.commitHash != "" { c := c.(commitHash := o.commitHash); }
        if o.tag != "" { c := c.(tag := o.tag); }
        if o.force { c := c.(force := true); }
        r := r.(checkout := Some(c));
        var count := CountSelected(c);
        err := if count > 1 then Some(ExclusiveCheckout) else if count == 0 then Some(NoCheckout) else None;
      }
      manifests := manifests[name := m.(repositories := Some(m.repositories.value[o.repoName := r]))];
    }

    method AddRepository(name: string, o: ManifestOptions) returns (err: Option<Failure>)
      requires name in manifests && manifests[name].repositories.Some?
      modifies this`manifests
      ensures
        var m := old(manifests)[name];
        var r := ModifyRepository(NEW_REPOSITORY, o);
        && err == r.error
        && manifests == old(manifests)[name := m.(repositories := Some(m.repositories.value[o.repoName := r.value]))]
    {
      var m := manifests[name];
      manifests := manifests[name := m.(repositories := Some(m.repositories.value[o.repoName := NEW_REPOSITORY]))];
      ghost var added := manifests[name].repositories.value;
      err := ModifyStoredRepository(name, o);
      ghost var r := ModifyRepository(NEW_REPOSITORY, o).value;
      assert added[o.repoName := r] == m.repositories.value[o.repoName := r];
    }

    method ModifyStoredManifest(name: string, o: ManifestOptions) returns (err: Option<Failure>)
      requires name in manifests
      modifies this`manifests
      ensures err == ModifyManifest(old(manifests)[name], o).error
      ensures manifests == old(manifests)[name := ModifyManifest(old(manifests)[name], o).value]
    {
      hide ModifyRepository;
      var m := manifests[name];
      if o.isPhase {
        m := m.(phaseRepository := o.repoName);
      }
      if o.targetPath != "" {
        m := m.(targetPath := o.targetPath);
      }
      if o.metadataPath != "" {
        m := m.(metadataPath := o.metadataPath);
      }
      hide Or;
      manifests := manifests[name := m];
      if o.repoName == "" {
        return None;
      }
      var known := m.repositories.Some? && o.repoName in m.repositories.value;
      if o.isPhase && o.url == "" && !known {
        return Some(RepositoryNotFound);
      }
      if m.repositories.None? {
        return Some(Crash);
      }
      if !known {
        err := AddRepository(name, o);
      } else {
        err := ModifyStoredRepository(name, o);
      }
    }

    /** AddManifest drops the error of filling the new manifest in. */
    method AddManifest(o: ManifestOptions, defaultTarget: string)
      modifies this`manifests
      ensures manifests == old(manifests)[o.name := ModifyManifest(NewManifest(defaultTarget), o).value]
    {
      manifests := manifests[o.name := NewManifest(defaultTarget)];
      var err := ModifyStoredManifest(o.name, o);
    }
  }

  lemma NewManifestsDoNotCrash(o: ManifestOptions, defaultTarget: string)
    ensures ModifyManifest(NewManifest(defaultTarget), o).error != Some(Crash)
  {
  }

  /** The configuration file; every command ends as the model says. */
  class Storage {
    var file: Config

    constructor (file: Config)
      ensures this.file == file
    {
      this.file := file;
    }

    method PersistConfig(c: ConfigObject, w: World) returns (err: Option<Failure>)
      modifies this
      ensures After(file, err) == Persist(old(file), c.Data(), w)
    {
      if !w.directory {
        return Some(DirectoryFailed);
      }
      if !w.write {
        return Some(WriteFailed);
      }
      file := c.Data();
      err := if w.permission then None else Some(PermissionFailed);
    }

    method Finish(c: ConfigObject, w: World) returns (err: Option<Failure>)
      modifies this
      ensures After(file, err) == Conclude(old(file), c.Data(), w)
    {
      err := c.EnsureComplete();
      if err.Some? {
        return;
      }
      if !w.output {
        return Some(OutputFailed);
      }
      err := PersistConfig(c, w);
    }

    method ExecuteCommand(command: Command, w: World) returns (err: Option<Failure>)
      modifies this
      ensures After(file, err) == Execute(old(file), command, w)
      ensures old(AllExclusive(file)) ==> AllExclusive(file)
      ensures old(Complete(file)) && (command.RunUseContext? ==> Usable(old(file), command.name)) ==> Complete(file)
      ensures err.Some? && err != Some(PermissionFailed) ==> file == old(file)
    {
      if AllExclusive(file) {
        CommandsKeepExclusive(file, command, w);
      }
      if Complete(file) {
        CommandsKeepComplete(file, command, w);
      }
      FailedCommandsChangeNothing(file, command, w);
      var c := new ConfigObject.Load(file);
      err := c.EnsureComplete();
      if err.Some? {
        return;
      }
      match command
      case RunSetContext(name, current, opts) => err := SetContextIn(c, name, current, opts, w);
      case RunSetManagementConfig(name, opts) => err := SetManagementIn(c, name, opts, w);
      case RunUseContext(name) => err := UseContextIn(c, name, w);
      case RunSetManifest(o) => err := SetManifestIn(c, o, w);
    }

    method SetContextIn(c: ConfigObject, name: string, current: bool, opts: seq<ContextOption>, w: World)
      returns (err: Option<Failure>)
      requires c.Data() == file
      modifies this, c
      ensures After(file, err) == SetContext(old(file), if current then old(file).currentContext else name, opts, w)
    {
      var context := if current then c.currentContext else name;
      if context == "" {
        return Some(EmptyContextName);
      }
      if context !in c.contexts {
        c.AddContext(context, opts);
      } else {
        c.ModifyContextEntry(context, opts);
      }
      err := Finish(c, w);
    }

    method SetManagementIn(c: ConfigObject, name: string, opts: seq<ManagementOption>, w: World)
      returns (err: Option<Failure>)
      requires c.Data() == file
      modifies this, c
      ensures After(file, err) == SetManagementConfig(old(file), name, opts, w)
    {
      if name == "" {
        return Some(EmptyManagementName);
      }
      if name !in c.management {
        c.AddManagementConfig(name, opts);
      } else {
        c.ModifyManagementConfig(name, opts);
      }
      err := Finish(c, w);
    }

    method UseContextIn(c: ConfigObject, name: string, w: World) returns (err: Option<Failure>)
      requires c.Data() == file
      modifies this, c
      ensures After(file, err) == UseContext(old(file), name, w)
    {
      if name !in c.contexts {
        return Some(ContextNotFound);
      }
      if c.currentContext != name {
        c.currentContext := name;
        err := PersistConfig(c, w);
        return;
      }
      return None;
    }

    method SetManifestIn(c: ConfigObject, o: ManifestOptions, w: World) returns (err: Option<Failure>)
      requires c.Data() == file
      modifies this, c
      ensures After(file, err) == SetManifestFor(old(file), o, w)
    {
      err := Validate(o);
      if err.Some? {
        return;
      }
      if o.name !in c.manifests {
        NewManifestsDoNotCrash(o, w.defaultTarget);
        c.AddManifest(o, w.defaultTarget);
      } else {
        err := c.ModifyStoredManifest(o.name, o);
        if err.Some? {
          return;
        }
      }
      err := PersistConfig(c, w);
    }
  }
}
