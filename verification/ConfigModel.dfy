/** The airshipctl configuration as data, and what each command makes of it (pkg/config). */
module ConfigModel {
  import opened Wrappers

  datatype Context = Context(manifest: string, managementConfiguration: string)

  datatype Management = Management(insecure: bool, kind: string, useProxy: bool, retries: int, delay: int)

  datatype Checkout = Checkout(commitHash: string, branch: string, tag: string, reference: string, force: bool)

  /** checkout is None where the file leaves the pointer nil. */
  datatype Repository = Repository(url: string, checkout: Option<Checkout>)

  /** repositories is None where the file leaves the map nil. */
  datatype Manifest = Manifest(
    phaseRepository: string, inventoryRepository: string, targetPath: string, metadataPath: string,
    repositories: Option<map<string, Repository>>)

  datatype Config = Config(
    contexts: map<string, Context>, manifests: map<string, Manifest>,
    management: map<string, Management>, currentContext: string)

  datatype Failure =
    | NotComplete | EmptyContextName | EmptyManagementName | ContextNotFound | MissingManifestName
    | MissingRepositoryName | RepositoryNotFound | ExclusiveCheckout | NoCheckout | OutputFailed
    | DirectoryFailed | WriteFailed | PermissionFailed | Crash

  // ----- Completeness -----

  /** EnsureComplete returns no error. */
  predicate Complete(c: Config) {
    && |c.contexts| != 0 && |c.manifests| != 0 && c.currentContext != ""
    && c.currentContext in c.contexts
    && c.contexts[c.currentContext].manifest in c.manifests
  }

  // ----- Contexts and management configurations -----

  datatype ContextOption = SetManifest(manifest: string) | SetManagement(management: string)

  function ApplyContext(c: Context, o: ContextOption): Context {
    match o
    case SetManifest(m) => c.(manifest := m)
    case SetManagement(m) => c.(managementConfiguration := m)
  }

  function ModifyContext(c: Context, opts: seq<ContextOption>): Context
    decreases |opts|
  {
    if opts == [] then c else ModifyContext(ApplyContext(c, opts[0]), opts[1..])
  }

  datatype ManagementOption =
    SetInsecure(b: bool) | SetKind(s: string) | SetUseProxy(b: bool) | SetRetries(i: int) | SetDelay(i: int)

  function ApplyManagement(m: Management, o: ManagementOption): Management {
    match o
    case SetInsecure(b) => m.(insecure := b)
    case SetKind(s) => m.(kind := s)
    case SetUseProxy(b) => m.(useProxy := b)
    case SetRetries(i) => m.(retries := i)
    case SetDelay(i) => m.(delay := i)
  }

  function ModifyManagement(m: Management, opts: seq<ManagementOption>): Management
    decreases |opts|
  {
    if opts == [] then m else ModifyManagement(ApplyManagement(m, opts[0]), opts[1..])
  }

  const NEW_MANAGEMENT := Management(false, "redfish", false, 30, 30)

  // ----- Manifests and repositories -----

  datatype ManifestOptions = ManifestOptions(
    name: string, repoName: string, url: string, branch: string, commitHash: string, tag: string,
    force: bool, isPhase: bool, targetPath: string, metadataPath: string)

  function One(s: string): nat { if s != "" then 1 else 0 }

  /** How many of commit hash, branch and tag are set. */
  function Selected(c: Checkout): nat { One(c.commitHash) + One(c.branch) + One(c.tag) }

  /** ManifestOptions.Validate */
  function Validate(o: ManifestOptions): Option<Failure> {
    if o.name == "" then Some(MissingManifestName)
    else if o.isPhase && o.repoName == "" then Some(MissingRepositoryName)
    else if One(o.commitHash) + One(o.branch) + One(o.tag) > 1 then Some(ExclusiveCheckout)
    else None
  }

  const NEW_REPOSITORY := Repository("", Some(Checkout("", "", "", "", false)))

  /** What a change leaves behind, also when it fails half-way. */
  datatype Changed<T> = Changed(value: T, error: Option<Failure>)

  function Or(s: string, otherwise: string): string { if s != "" then s else otherwise }

  function ModifyRepository(r: Repository, o: ManifestOptions): Changed<Repository> {
    var r' := r.(url := Or(o.url, r.url));
    if r.checkout.None? then Changed(r', Some(Crash)) else
    var c := r.checkout.value;
    var c' := c.(branch := Or(o.branch, c.branch), commitHash := Or(o.commitHash, c.commitHash),
                 tag := Or(o.tag, c.tag), force := c.force || o.force);
    Changed(r'.(checkout := Some(c')),
            if Selected(c') > 1 then Some(ExclusiveCheckout)
            else if Selected(c') == 0 then Some(NoCheckout) else None)
  }

  function ModifyManifest(m: Manifest, o: ManifestOptions): Changed<Manifest> {
    var m' := m.(phaseRepository := if o.isPhase then o.repoName else m.phaseRepository,
                 targetPath := Or(o.targetPath, m.targetPath), metadataPath := Or(o.metadataPath, m.metadataPath));
    var known := m.repositories.Some? && o.repoName in m.repositories.value;
    if o.repoName == "" then Changed(m', None)
    else if o.isPhase && o.url == "" && !known then Changed(m', Some(RepositoryNotFound))
    else if m.repositories.None? then Changed(m', Some(Crash))
    else
      var repositories := m.repositories.value;
      var r := ModifyRepository(if known then repositories[o.repoName] else NEW_REPOSITORY, o);
      Changed(m'.(repositories := Some(repositories[o.repoName := r.value])), r.error)
  }

  const DEFAULT_REPOSITORY := "primary"
  const DEFAULT_METADATA := "manifests/site/test-site/metadata.yaml"

  function NewManifest(defaultTarget: string): Manifest {
    Manifest(DEFAULT_REPOSITORY, DEFAULT_REPOSITORY, defaultTarget, DEFAULT_METADATA,
             Some(map[DEFAULT_REPOSITORY := NEW_REPOSITORY]))
  }

  // ----- Commands -----

  datatype Command =
    | RunSetContext(name: string, current: bool, contextOptions: seq<ContextOption>)
    | RunSetManagementConfig(name: string, managementOptions: seq<ManagementOption>)
    | RunUseContext(name: string)
    | RunSetManifest(options: ManifestOptions)

  /** Which of the steps outside the program succeed, and the default target path. */
  datatype World = World(
    output: bool, directory: bool, write: bool, permission: bool, defaultTarget: string)

  /** The configuration file after a command, and how the command ended. */
  datatype After = After(file: Config, error: Option<Failure>)

  /** PersistConfig: the file is written before its permission is changed. */
  function Persist(file: Config, c: Config, w: World): After {
    if !w.directory then After(file, Some(DirectoryFailed))
    else if !w.write then After(file, Some(WriteFailed))
    else After(c, if w.permission then None else Some(PermissionFailed))
  }

  /** The common end of the two set commands. */
  function Conclude(file: Config, c: Config, w: World): After {
    if !Complete(c) then After(file, Some(NotComplete))
    else if !w.output then After(file, Some(OutputFailed))
    else Persist(file, c, w)
  }

  function SetContext(file: Config, name: string, opts: seq<ContextOption>, w: World): After {
    if name == "" then After(file, Some(EmptyContextName)) else
    var before := if name in file.contexts then file.contexts[name] else Context("", "");
    Conclude(file, file.(contexts := file.contexts[name := ModifyContext(before, opts)]), w)
  }

  function SetManagementConfig(file: Config, name: string, opts: seq<ManagementOption>, w: World): After {
    if name == "" then After(file, Some(EmptyManagementName)) else
    var before := if name in file.management then file.management[name] else NEW_MANAGEMENT;
    Conclude(file, file.(management := file.management[name := ModifyManagement(before, opts)]), w)
  }

  function UseContext(file: Config, name: string, w: World): After {
    if name !in file.contexts then After(file, Some(ContextNotFound))
    else if file.currentContext == name then After(file, None)
    else Persist(file, file.(currentContext := name), w)
  }

  /** A new manifest is kept even when filling it in fails; only a crash stops the command. */
  function SetManifestFor(file: Config, o: ManifestOptions, w: World): After {
    if Validate(o).Some? then After(file, Validate(o)) else
    var isNew := o.name !in file.manifests;
    var m := ModifyManifest(if isNew then NewManifest(w.defaultTarget) else file.manifests[o.name], o);
    if m.error.Some? && (!isNew || m.error == Some(Crash)) then After(file, m.error)
    else Persist(file, file.(manifests := file.manifests[o.name := m.value]), w)
  }

  /** Every command first loads the file and insists that it is complete. */
  function Execute(file: Config, c: Command, w: World): After {
    if !Complete(file) then After(file, Some(NotComplete)) else
    match c
    case RunSetContext(name, current, opts) =>
      SetContext(file, if current then file.currentContext else name, opts, w)
    case RunSetManagementConfig(name, opts) => SetManagementConfig(file, name, opts, w)
    case RunUseContext(name) => UseContext(file, name, w)
    case RunSetManifest(o) => SetManifestFor(file, o, w)
  }

  // ----- What single commands keep -----

  /** A failed command leaves the file alone, unless only the permission change failed. */
  lemma FailedCommandsChangeNothing(file: Config, c: Command, w: World)
    ensures Execute(file, c, w).error.Some? ==>
              Execute(file, c, w).file == file || Execute(file, c, w).error == Some(PermissionFailed)
  {
  }

  /** use-context keeps the file complete exactly when the name is usable. */
  ghost predicate Usable(file: Config, name: string) {
    name != "" && (name in file.contexts ==> file.contexts[name].manifest in file.manifests)
  }

  /**
   * From a complete file every command leads to a complete file, except a
   * use-context that is written and names a context without a manifest, or "".
   */
  lemma CommandsKeepComplete(file: Config, c: Command, w: World)
    requires Complete(file)
    ensures Complete(Execute(file, c, w).file) <==>
            !(c.RunUseContext? && c.name in file.contexts && !Usable(file, c.name) && w.directory && w.write)
  {
  }

  // ----- What single commands store -----

  /** The manifest that the last of the options sets. */
  function LastManifest(opts: seq<ContextOption>, otherwise: string): string {
    if opts == [] then otherwise
    else if opts[|opts| - 1].SetManifest? then opts[|opts| - 1].manifest
    else LastManifest(opts[..|opts| - 1], otherwise)
  }

  function LastManagement(opts: seq<ContextOption>, otherwise: string): string {
    if opts == [] then otherwise
    else if opts[|opts| - 1].SetManagement? then opts[|opts| - 1].management
    else LastManagement(opts[..|opts| - 1], otherwise)
  }

  /** Of several options for one field the last one counts, and other fields stay. */
  lemma {:induction false} LastOptionWins(c: Context, opts: seq<ContextOption>)
    ensures ModifyContext(c, opts) ==
              Context(LastManifest(opts, c.manifest), LastManagement(opts, c.managementConfiguration))
    decreases |opts|
  {
    if opts != [] {
      var front, last := opts[..|opts| - 1], opts[|opts| - 1];
      LastOptionWins(c, front);
      ModifyContextSnoc(c, front, last);
      assert opts == front + [last];
    }
  }

  lemma {:induction false} ModifyContextSnoc(c: Context, opts: seq<ContextOption>, o: ContextOption)
    ensures ModifyContext(c, opts + [o]) == ApplyContext(ModifyContext(c, opts), o)
    decreases |opts|
  {
    if opts == [] {
      assert (opts + [o])[1..] == [];
    } else {
      assert (opts + [o])[1..] == opts[1..] + [o];
      ModifyContextSnoc(ApplyContext(c, opts[0]), opts[1..], o);
    }
  }

  /** A set-context that succeeds stores the options in the one context, and changes nothing else. */
  lemma {:induction false} SetContextStores(
    file: Config, name: string, current: bool, opts: seq<ContextOption>, w: World)
    requires Execute(file, RunSetContext(name, current, opts), w).error.None?
    ensures
      var target := if current then file.currentContext else name;
      var after := Execute(file, RunSetContext(name, current, opts), w).file;
      var before := if target in file.contexts then file.contexts[target] else Context("", "");
      && target != "" && target in after.contexts
      && after.contexts[target].manifest == LastManifest(opts, before.manifest)
      && after.contexts[target].managementConfiguration == LastManagement(opts, before.managementConfiguration)
      && after.contexts - {target} == file.contexts - {target}
      && after.manifests == file.manifests && after.management == file.management
      && after.currentContext == file.currentContext
  {
    var target := if current then file.currentContext else name;
    LastOptionWins(if target in file.contexts then file.contexts[target] else Context("", ""), opts);
  }

  /** Which of commit hash, branch and tag are set. */
  function Kinds(commitHash: string, branch: string, tag: string): set<string> {
    (if commitHash != "" then {"commit"} else {}) + (if branch != "" then {"branch"} else {})
    + (if tag != "" then {"tag"} else {})
  }

  function KindsOf(c: Checkout): set<string> { Kinds(c.commitHash, c.branch, c.tag) }

  ghost predicate Stored(c: Config, manifest: string, repository: string) {
    && manifest in c.manifests && c.manifests[manifest].repositories.Some?
    && repository in c.manifests[manifest].repositories.value
    && c.manifests[manifest].repositories.value[repository].checkout.Some?
  }

  ghost function CheckoutAt(c: Config, manifest: string, repository: string): Checkout
    requires Stored(c, manifest, repository)
  {
    c.manifests[manifest].repositories.value[repository].checkout.value
  }

  /** A stored checkout of one kind cannot be given another kind: the command is refused. */
  lemma CheckoutKindIsFixed(file: Config, o: ManifestOptions, w: World)
    requires Complete(file) && Validate(o).None? && o.repoName != "" && Stored(file, o.name, o.repoName)
    requires
      var kinds := KindsOf(CheckoutAt(file, o.name, o.repoName));
      kinds != {} && !(Kinds(o.commitHash, o.branch, o.tag) <= kinds)
    ensures Execute(file, RunSetManifest(o), w) == After(file, Some(ExclusiveCheckout))
  {
  }

  /**
   * A set-manifest that succeeds on a repository of a known manifest stores
   * what was given, leaves exactly one checkout kind, and changes no other
   * repository, manifest or context.
   */
  lemma SetManifestStores(file: Config, o: ManifestOptions, w: World)
    requires o.repoName != "" && o.name in file.manifests
    requires Execute(file, RunSetManifest(o), w).error.None?
    ensures
      var after := Execute(file, RunSetManifest(o), w).file;
      && Stored(after, o.name, o.repoName)
      && var c := CheckoutAt(after, o.name, o.repoName);
         && |KindsOf(c)| == 1
         && (o.commitHash != "" ==> c.commitHash == o.commitHash) && (o.branch != "" ==> c.branch == o.branch)
         && (o.tag != "" ==> c.tag == o.tag) && (o.force ==> c.force)
         && (o.url != "" ==> after.manifests[o.name].repositories.value[o.repoName].url == o.url)
         && after.manifests[o.name].repositories.value - {o.repoName} ==
            file.manifests[o.name].repositories.value - {o.repoName}
         && after.manifests - {o.name} == file.manifests - {o.name}
         && after == file.(manifests := after.manifests)
  {
    var after := Execute(file, RunSetManifest(o), w).file;
    var c := CheckoutAt(after, o.name, o.repoName);
    assert Selected(c) == 1;
    assert KindsOf(c) == if c.commitHash != "" then {"commit"} else if c.branch != "" then {"branch"} else {"tag"};
  }

  /** At most one of commit hash, branch and tag is set. */
  ghost predicate Exclusive(r: Repository) { r.checkout.Some? ==> Selected(r.checkout.value) <= 1 }

  ghost predicate ExclusiveManifest(m: Manifest) {
    m.repositories.Some? ==> forall r :: r in m.repositories.value ==> Exclusive(m.repositories.value[r])
  }

  ghost predicate AllExclusive(c: Config) {
    forall m :: m in c.manifests ==> ExclusiveManifest(c.manifests[m])
  }

  lemma CommandsKeepExclusive(file: Config, c: Command, w: World)
    requires AllExclusive(file)
    ensures AllExclusive(Execute(file, c, w).file)
  {
    if c.RunSetManifest? && Validate(c.options).None? {
      SetManifestExclusive(file, c.options, w);
    }
  }

  lemma SetManifestExclusive(file: Config, o: ManifestOptions, w: World)
    requires AllExclusive(file) && Validate(o).None?
    ensures AllExclusive(SetManifestFor(file, o, w).file)
  {
    var isNew := o.name !in file.manifests;
    var m := if isNew then NewManifest(w.defaultTarget) else file.manifests[o.name];
    if isNew || ModifyManifest(m, o).error.None? {
      ModifyManifestExclusive(m, o, isNew);
    }
  }

  lemma ModifyManifestExclusive(m: Manifest, o: ManifestOptions, isNew: bool)
    requires Validate(o).None? && ExclusiveManifest(m)
    requires ModifyManifest(m, o).error.None? ||
             (isNew && m.repositories.Some? &&
              forall r :: r in m.repositories.value ==> m.repositories.value[r] == NEW_REPOSITORY)
    ensures ExclusiveManifest(ModifyManifest(m, o).value)
  {
  }

  // ----- Whole runs -----

  datatype Action = Action(command: Command, world: World)

  function Run(file: Config, actions: seq<Action>): Config
    decreases |actions|
  {
    if actions == [] then file
    else Run(Execute(file, actions[0].command, actions[0].world).file, actions[1..])
  }

  /** Every use-context of the run names a usable context at its time. */
  ghost predicate UsableThroughout(file: Config, actions: seq<Action>)
    decreases |actions|
  {
    actions == [] ||
    ((actions[0].command.RunUseContext? ==> Usable(file, actions[0].command.name)) &&
     UsableThroughout(Execute(file, actions[0].command, actions[0].world).file, actions[1..]))
  }

  /** Over any run, completeness and exclusive checkouts are kept. */
  lemma {:induction false} RunsKeepInvariants(file: Config, actions: seq<Action>)
    ensures AllExclusive(file) ==> AllExclusive(Run(file, actions))
    ensures Complete(file) && UsableThroughout(file, actions) ==> Complete(Run(file, actions))
    decreases |actions|
  {
    if actions != [] {
      var next := Execute(file, actions[0].command, actions[0].world).file;
      if AllExclusive(file) {
        CommandsKeepExclusive(file, actions[0].command, actions[0].world);
      }
      if Complete(file) {
        CommandsKeepComplete(file, actions[0].command, actions[0].world);
      }
      RunsKeepInvariants(next, actions[1..]);
    }
  }

  /** Once a use-context has stored an unusable name, the four modelled commands no longer change the file. */
  lemma {:induction false} IncompleteIsStuck(file: Config, actions: seq<Action>)
    requires !Complete(file)
    ensures Run(file, actions) == file
    decreases |actions|
  {
    if actions != [] {
      IncompleteIsStuck(file, actions[1..]);
    }
  }
}
