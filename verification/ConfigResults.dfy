/** When each command succeeds, and all that it then stores (config.go and config_helper.go). */
module ConfigResults {
  import opened Wrappers
  import opened ConfigModel

  /** The file can be written and its permission changed. */
  predicate Persists(w: World) { w.directory && w.write && w.permission }

  // ----- Contexts -----

  lemma {:induction false} SetContextSucceeds(
    file: Config, name: string, current: bool, opts: seq<ContextOption>, w: World)
    ensures
      var target := if current then file.currentContext else name;
      var before := if target in file.contexts then file.contexts[target].manifest else "";
      Execute(file, RunSetContext(name, current, opts), w).error.None? <==>
      && Complete(file) && target != "" && w.output && Persists(w)
      && (target == file.currentContext ==> LastManifest(opts, before) in file.manifests)
  {
    var target := if current then file.currentContext else name;
    LastOptionWins(if target in file.contexts then file.contexts[target] else Context("", ""), opts);
  }

  lemma UseContextSucceeds(file: Config, name: string, w: World)
    ensures Execute(file, RunUseContext(name), w).error.None? <==>
            Complete(file) && name in file.contexts && (file.currentContext == name || Persists(w))
    ensures Execute(file, RunUseContext(name), w).error.None? ==>
              Execute(file, RunUseContext(name), w).file == file.(currentContext := name)
  {
  }

  /** Where only the permission step fails, the file is written as if it had not failed. */
  lemma PermissionComesLast(file: Config, c: Command, w: World)
    requires Execute(file, c, w).error == Some(PermissionFailed)
    ensures Execute(file, c, w.(permission := true)) == After(Execute(file, c, w).file, None)
  {
  }

  // ----- Management configurations -----

  predicate SameField(o: ManagementOption, p: ManagementOption) {
    match o
    case SetInsecure(_) => p.SetInsecure? case SetKind(_) => p.SetKind? case SetUseProxy(_) => p.SetUseProxy?
    case SetRetries(_) => p.SetRetries? case SetDelay(_) => p.SetDelay?
  }

  predicate Holds(m: Management, o: ManagementOption) {
    match o
    case SetInsecure(b) => m.insecure == b case SetKind(s) => m.kind == s case SetUseProxy(b) => m.useProxy == b
    case SetRetries(i) => m.retries == i case SetDelay(i) => m.delay == i
  }

  /** The fields of m, as options that would set them. */
  function FieldsOf(m: Management): seq<ManagementOption> {
    [SetInsecure(m.insecure), SetKind(m.kind), SetUseProxy(m.useProxy), SetRetries(m.retries), SetDelay(m.delay)]
  }

  /** Option i is the last one for its field. */
  ghost predicate LastFor(opts: seq<ManagementOption>, i: nat)
    requires i < |opts|
  {
    forall k :: i < k < |opts| ==> !SameField(opts[i], opts[k])
  }

  /** Of several options for one field the last one counts, and fields without an option stay. */
  lemma {:induction false} LastManagementWins(m: Management, opts: seq<ManagementOption>)
    ensures forall i :: 0 <= i < |opts| && LastFor(opts, i) ==> Holds(ModifyManagement(m, opts), opts[i])
    ensures forall f :: f in FieldsOf(m) && (forall o :: o in opts ==> !SameField(f, o)) ==>
              Holds(ModifyManagement(m, opts), f)
    decreases |opts|
  {
    if opts != [] {
      var next := ApplyManagement(m, opts[0]);
      LastManagementWins(next, opts[1..]);
      hide ModifyManagement;
      forall i | 0 <= i < |opts| && LastFor(opts, i) ensures Holds(ModifyManagement(next, opts[1..]), opts[i]) {
        if i > 0 {
          assert opts[1..][i - 1] == opts[i] && LastFor(opts[1..], i - 1);
        } else {
          FieldSet(m, opts[0]);
          forall o | o in opts[1..] ensures !SameField(opts[0], o) {
            var k :| 0 < k < |opts| && opts[k] == o;
          }
        }
      }
      forall f | f in FieldsOf(m) && (forall o :: o in opts ==> !SameField(f, o))
        ensures Holds(ModifyManagement(next, opts[1..]), f)
      {
        assert opts[0] in opts;
        OthersStay(m, opts[0], f);
      }
    }
  }

  lemma FieldSet(m: Management, o: ManagementOption)
    ensures o in FieldsOf(ApplyManagement(m, o))
  {
    var fs := FieldsOf(ApplyManagement(m, o));
    assert fs[0] in fs && fs[1] in fs && fs[2] in fs && fs[3] in fs && fs[4] in fs;
  }

  lemma OthersStay(m: Management, o: ManagementOption, f: ManagementOption)
    requires f in FieldsOf(m) && !SameField(f, o)
    ensures f in FieldsOf(ApplyManagement(m, o))
  {
    var fs := FieldsOf(ApplyManagement(m, o));
    assert fs[0] in fs && fs[1] in fs && fs[2] in fs && fs[3] in fs && fs[4] in fs;
  }

  /** set-management-config: when it succeeds, and what it stores in the one configuration. */
  lemma {:induction false} SetManagementStores(file: Config, name: string, opts: seq<ManagementOption>, w: World)
    ensures
      var after := Execute(file, RunSetManagementConfig(name, opts), w);
      var before := if name in file.management then file.management[name]
                    else Management(false, "redfish", false, 30, 30);
      && (after.error.None? <==> Complete(file) && name != "" && w.output && Persists(w))
      && (after.error.None? ==>
            && name in after.file.management
            && (forall i :: 0 <= i < |opts| && LastFor(opts, i) ==> Holds(after.file.management[name], opts[i]))
            && (forall f :: f in FieldsOf(before) && (forall o :: o in opts ==> !SameField(f, o)) ==>
                  Holds(after.file.management[name], f))
            && after.file.management - {name} == file.management - {name}
            && after.file == file.(management := after.file.management))
  {
    var before := if name in file.management then file.management[name] else NEW_MANAGEMENT;
    LastManagementWins(before, opts);
    hide ModifyManagement, FieldsOf, Holds;
  }

  // ----- Manifests -----

  /** The value given, or what was there before. */
  ghost predicate Given(value: string, before: string, after: string) {
    after == if value != "" then value else before
  }

  ghost predicate RepositoryStored(before: Repository, o: ManifestOptions, after: Repository) {
    && Given(o.url, before.url, after.url)
    && before.checkout.Some? && after.checkout.Some?
    && var b, a := before.checkout.value, after.checkout.value;
    && Given(o.branch, b.branch, a.branch) && Given(o.commitHash, b.commitHash, a.commitHash)
    && Given(o.tag, b.tag, a.tag) && a.force == (b.force || o.force) && a.reference == b.reference
    && |KindsOf(a)| == 1
  }

  const FRESH_REPOSITORY := Repository("", Some(Checkout("", "", "", "", false)))

  /** One repository is changed as the options say, and no other. */
  ghost predicate RepositoriesStored(
    before: map<string, Repository>, o: ManifestOptions, after: map<string, Repository>)
  {
    && o.repoName in after && after - {o.repoName} == before - {o.repoName}
    && RepositoryStored(
         if o.repoName in before then before[o.repoName] else FRESH_REPOSITORY, o, after[o.repoName])
  }

  /** All that a successful set-manifest does to a manifest. */
  ghost predicate ManifestStored(before: Manifest, o: ManifestOptions, after: Manifest) {
    && Given(o.targetPath, before.targetPath, after.targetPath)
    && Given(o.metadataPath, before.metadataPath, after.metadataPath)
    && after.phaseRepository == (if o.isPhase then o.repoName else before.phaseRepository)
    && after.inventoryRepository == before.inventoryRepository
    && if o.repoName == "" then after.repositories == before.repositories
       else before.repositories.Some? && after.repositories.Some? &&
            RepositoriesStored(before.repositories.value, o, after.repositories.value)
  }

  /** The options name a manifest, a repository if it is for phases, and one kind of checkout at most. */
  ghost predicate ValidOptions(o: ManifestOptions) {
    o.name != "" && (o.isPhase ==> o.repoName != "") && |Kinds(o.commitHash, o.branch, o.tag)| <= 1
  }

  lemma KindsCount(commitHash: string, branch: string, tag: string)
    ensures |Kinds(commitHash, branch, tag)| == One(commitHash) + One(branch) + One(tag)
  {
    var a: set<string> := if commitHash != "" then {"commit"} else {};
    var b: set<string> := if branch != "" then {"branch"} else {};
    var c: set<string> := if tag != "" then {"tag"} else {};
    assert "commit" != "branch" && "branch" != "tag" && "commit" != "tag";
    assert |a + b| == |a| + |b|;
    assert |a + b + c| == |a + b| + |c|;
  }

  lemma ValidateMeans(o: ManifestOptions)
    ensures Validate(o).None? <==> ValidOptions(o)
  {
    KindsCount(o.commitHash, o.branch, o.tag);
  }

  /** The repository for phases is known or has a url. */
  predicate Found(m: Manifest, o: ManifestOptions) {
    !o.isPhase || o.url != "" || (m.repositories.Some? && o.repoName in m.repositories.value)
  }

  /** The repositories, or the checkout of the one named, are missing behind their pointer. */
  predicate Missing(m: Manifest, o: ManifestOptions) {
    m.repositories.None? ||
    (o.repoName in m.repositories.value && m.repositories.value[o.repoName].checkout.None?)
  }

  /** The kinds of checkout that are given or stored already. */
  function AllKinds(m: Manifest, o: ManifestOptions): set<string>
    requires !Missing(m, o)
  {
    Kinds(o.commitHash, o.branch, o.tag)
    + if o.repoName in m.repositories.value then KindsOf(m.repositories.value[o.repoName].checkout.value) else {}
  }

  /** With what is stored already, a known or new repository gets exactly one kind of checkout. */
  ghost predicate ChangeFits(m: Manifest, o: ManifestOptions) {
    o.repoName != "" ==> Found(m, o) && !Missing(m, o) && |AllKinds(m, o)| == 1
  }

  lemma {:induction false} ChangeSucceeds(m: Manifest, o: ManifestOptions)
    ensures ModifyManifest(m, o).error.None? <==> ChangeFits(m, o)
  {
    if o.repoName != "" {
      ChangeFails(m, o);
      hide ModifyManifest, Found, Missing, AllKinds;
    }
  }

  lemma {:induction false} ChangeStores(m: Manifest, o: ManifestOptions)
    requires ModifyManifest(m, o).error.None?
    ensures ManifestStored(m, o, ModifyManifest(m, o).value)
  {
    hide ModifyRepository, RepositoryStored, Kinds, KindsOf;
    if o.repoName != "" {
      var rs := m.repositories.value;
      var r := if o.repoName in rs then rs[o.repoName] else NEW_REPOSITORY;
      var after := ModifyRepository(r, o);
      RepositoryMeans(r, o);
      assert rs[o.repoName := after.value] - {o.repoName} == rs - {o.repoName};
      assert RepositoriesStored(rs, o, rs[o.repoName := after.value]);
      hide RepositoriesStored;
    }
  }

  lemma {:induction false} RepositoryMeans(r: Repository, o: ManifestOptions)
    ensures ModifyRepository(r, o).error.None? ==> RepositoryStored(r, o, ModifyRepository(r, o).value)
  {
    if r.checkout.Some? {
      var c := r.checkout.value;
      var a := ModifyRepository(r, o).value.checkout.value;
      KindsCount(a.commitHash, a.branch, a.tag);
      KindsJoin(o.commitHash, o.branch, o.tag, c.commitHash, c.branch, c.tag);
      hide Kinds, One;
    }
  }

  lemma KindsJoin(a: string, b: string, c: string, a': string, b': string, c': string)
    ensures Kinds(Or(a, a'), Or(b, b'), Or(c, c')) == Kinds(a, b, c) + Kinds(a', b', c')
  {
  }

  /** set-manifest on a known manifest: when it succeeds, and all that it stores. */
  lemma {:induction false} KnownManifestStores(file: Config, o: ManifestOptions, w: World)
    requires o.name in file.manifests
    ensures
      var after := Execute(file, RunSetManifest(o), w);
      && (after.error.None? <==>
            Complete(file) && ValidOptions(o) && Persists(w) && ChangeFits(file.manifests[o.name], o))
      && (after.error.None? ==>
            && o.name in after.file.manifests
            && ManifestStored(file.manifests[o.name], o, after.file.manifests[o.name])
            && after.file.manifests - {o.name} == file.manifests - {o.name}
            && after.file == file.(manifests := after.file.manifests))
  {
    hide ModifyManifest, ManifestStored, ChangeFits, ValidOptions, Validate, Complete;
    ValidateMeans(o);
    ChangeSucceeds(file.manifests[o.name], o);
    if ModifyManifest(file.manifests[o.name], o).error.None? {
      ChangeStores(file.manifests[o.name], o);
    }
  }

  /**
   * set-manifest on a new manifest: it succeeds whether or not the change fits,
   * and stores the default manifest with the change where it fits.  Where it
   * does not, paths and phase repository are stored all the same, and so is a
   * repository without a checkout, unless it is for phases and has no url.
   */
  lemma {:induction false} NewManifestStores(file: Config, o: ManifestOptions, w: World)
    requires o.name !in file.manifests
    ensures
      var after := Execute(file, RunSetManifest(o), w);
      var before := Manifest("primary", "primary", w.defaultTarget, "manifests/site/test-site/metadata.yaml",
                             Some(map["primary" := FRESH_REPOSITORY]));
      && (after.error.None? <==> Complete(file) && ValidOptions(o) && Persists(w))
      && (after.error.None? ==>
            && o.name in after.file.manifests
            && var m := after.file.manifests[o.name];
            && Given(o.targetPath, before.targetPath, m.targetPath)
            && Given(o.metadataPath, before.metadataPath, m.metadataPath)
            && m.phaseRepository == (if o.isPhase then o.repoName else "primary")
            && m.inventoryRepository == "primary"
            && (ChangeFits(before, o) ==> ManifestStored(before, o, m))
            && (!ChangeFits(before, o) ==>
                  m.repositories ==
                  if o.isPhase && o.url == "" && o.repoName != "primary" then before.repositories
                  else Some(map["primary" := FRESH_REPOSITORY][
                              o.repoName := Repository(o.url, Some(Checkout("", "", "", "", o.force)))]))
            && after.file == file.(manifests := file.manifests[o.name := m]))
  {
    hide ModifyManifest, ChangeFits, ManifestStored, ValidOptions, Validate, Complete, Given;
    var before := NewManifest(w.defaultTarget);
    ValidateMeans(o);
    ChangeSucceeds(before, o);
    PathsStored(before, o);
    if ModifyManifest(before, o).error.None? {
      ChangeStores(before, o);
    }
    if ValidOptions(o) && ModifyManifest(before, o).error.Some? {
      NoCheckoutStored(w.defaultTarget, o);
    }
  }

  /** These are stored whether or not the repository step succeeds. */
  lemma PathsStored(before: Manifest, o: ManifestOptions)
    ensures
      var after := ModifyManifest(before, o).value;
      && Given(o.targetPath, before.targetPath, after.targetPath)
      && Given(o.metadataPath, before.metadataPath, after.metadataPath)
      && after.phaseRepository == (if o.isPhase then o.repoName else before.phaseRepository)
      && after.inventoryRepository == before.inventoryRepository
  {
  }

  /** A change that does not fit the default manifest gives no checkout, or a repository for phases without a url. */
  lemma NoCheckoutStored(defaultTarget: string, o: ManifestOptions)
    requires ValidOptions(o) && ModifyManifest(NewManifest(defaultTarget), o).error.Some?
    ensures ModifyManifest(NewManifest(defaultTarget), o).error != Some(Crash)
    ensures
      ModifyManifest(NewManifest(defaultTarget), o).value.repositories ==
      if o.isPhase && o.url == "" && o.repoName != "primary" then Some(map["primary" := FRESH_REPOSITORY])
      else Some(map["primary" := FRESH_REPOSITORY][
                  o.repoName := Repository(o.url, Some(Checkout("", "", "", "", o.force)))])
  {
    KindsCount(o.commitHash, o.branch, o.tag);
    hide Kinds;
  }

  lemma {:induction false} ChangeFails(m: Manifest, o: ManifestOptions)
    requires o.repoName != ""
    ensures
      var error := ModifyManifest(m, o).error;
      && (error == Some(RepositoryNotFound) <==> !Found(m, o))
      && (error == Some(Crash) <==> Found(m, o) && Missing(m, o))
      && (error == Some(ExclusiveCheckout) <==> Found(m, o) && !Missing(m, o) && |AllKinds(m, o)| > 1)
      && (error == Some(NoCheckout) <==> Found(m, o) && !Missing(m, o) && |AllKinds(m, o)| == 0)
      && (error == None <==> Found(m, o) && !Missing(m, o) && |AllKinds(m, o)| == 1)
  {
    assert KindsOf(Checkout("", "", "", "", false)) == {};
    hide Kinds, KindsOf, ModifyRepository;
    if m.repositories.Some? {
      var rs := m.repositories.value;
      RepositoryFails(if o.repoName in rs then rs[o.repoName] else NEW_REPOSITORY, o);
    }
  }

  /** Why set-manifest on a known manifest is refused, before anything is written. */
  lemma {:induction false} KnownManifestFails(file: Config, o: ManifestOptions, w: World)
    requires Complete(file) && o.name in file.manifests && ValidOptions(o) && o.repoName != ""
    ensures
      var m, error := file.manifests[o.name], Execute(file, RunSetManifest(o), w).error;
      && (error == Some(RepositoryNotFound) <==> !Found(m, o))
      && (error == Some(Crash) <==> Found(m, o) && Missing(m, o))
      && (error == Some(ExclusiveCheckout) <==> Found(m, o) && !Missing(m, o) && |AllKinds(m, o)| > 1)
      && (error == Some(NoCheckout) <==> Found(m, o) && !Missing(m, o) && |AllKinds(m, o)| == 0)
  {
    hide Complete, ModifyManifest, ValidOptions, Validate, Found, Missing, AllKinds;
    ValidateMeans(o);
    ChangeFails(file.manifests[o.name], o);
  }

  lemma {:induction false} RepositoryFails(r: Repository, o: ManifestOptions)
    ensures ModifyRepository(r, o).error == Some(Crash) <==> r.checkout.None?
    ensures r.checkout.Some? ==>
              var kinds := Kinds(o.commitHash, o.branch, o.tag) + KindsOf(r.checkout.value);
              && (ModifyRepository(r, o).error == Some(ExclusiveCheckout) <==> |kinds| > 1)
              && (ModifyRepository(r, o).error == Some(NoCheckout) <==> |kinds| == 0)
              && (ModifyRepository(r, o).error == None <==> |kinds| == 1)
  {
    if r.checkout.Some? {
      var c := r.checkout.value;
      var a := ModifyRepository(r, o).value.checkout.value;
      KindsCount(a.commitHash, a.branch, a.tag);
      KindsJoin(o.commitHash, o.branch, o.tag, c.commitHash, c.branch, c.tag);
      hide Kinds, One;
    }
  }

  /** Which options are refused, and why. */
  lemma ValidateFails(o: ManifestOptions)
    ensures Validate(o) == Some(MissingManifestName) <==> o.name == ""
    ensures Validate(o) == Some(MissingRepositoryName) <==> o.name != "" && o.isPhase && o.repoName == ""
    ensures Validate(o) == Some(ExclusiveCheckout) <==>
            o.name != "" && (o.isPhase ==> o.repoName != "") && |Kinds(o.commitHash, o.branch, o.tag)| > 1
  {
    KindsCount(o.commitHash, o.branch, o.tag);
  }

  /** A command that could succeed fails at the first outside step that does, and at no other. */
  lemma OutsideFails(file: Config, c: Command, w: World)
    requires Execute(file, c, World(true, true, true, true, w.defaultTarget)).error.None?
    ensures
      Execute(file, c, w).error ==
      if (c.RunSetContext? || c.RunSetManagementConfig?) && !w.output then Some(OutputFailed)
      else if c.RunUseContext? && c.name == file.currentContext then None
      else if !w.directory then Some(DirectoryFailed)
      else if !w.write then Some(WriteFailed)
      else if !w.permission then Some(PermissionFailed)
      else None
  {
    hide Complete, ModifyManifest, ModifyContext, ModifyManagement, Validate;
  }
}
