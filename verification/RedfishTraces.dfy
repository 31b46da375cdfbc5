/**
 * Requests to a baseboard management controller and what a trace of them shows
 * (pkg/remote/redfish/client.go and utils.go).
 */
module RedfishTraces {
  import opened Wrappers

  datatype PowerState = PowerOn | PowerOff | PoweringOn | PoweringOff | OtherState

  datatype ResetKind = ForceOff | SwitchOn

  datatype Request =
    | GetSystem
    | ListMedia(manager: string)
    | GetMedia(manager: string, media: string)
    | EjectMedia(manager: string, media: string)
    | InsertMedia(manager: string, media: string, image: string)
    | SetBoot(target: string)
    | Reset(kind: ResetKind)

  /**
   * Whatever a controller may answer.  status is None without an HTTP response;
   * manager and mediaTypes are None where following the answer's pointers crashes.
   */
  datatype Response = Response(
    status: Option<int>, clientError: bool,
    power: Option<PowerState>, manager: Option<string>, bootTargets: seq<string>,
    members: seq<string>, inserted: bool, mediaTypes: Option<seq<string>>)

  /** What the client looks at in an answer before it goes on. */
  datatype Screening =
    | Success            // the status is 200 or 204
    | NoClientError      // the client library reports no error
    | SuccessOrConflict  // the status is 200, 204 or 409

  datatype Event = Event(request: Request, screening: Screening, response: Response)

  type Trace = seq<Event>

  /** ScreenRedfishError as a classifier: only 200 and 204 are a success. */
  predicate Accepted(r: Response) { r.status == Some(200) || r.status == Some(204) }

  predicate Conflict(r: Response) { r.status == Some(409) }

  /** The answer passes the screening that the client applies to it. */
  predicate Passable(e: Event) {
    match e.screening
    case Success => Accepted(e.response)
    case NoClientError => !e.response.clientError
    case SuccessOrConflict => Accepted(e.response) || Conflict(e.response)
  }

  ghost predicate AllPassable(t: Trace) { forall e :: e in t ==> Passable(e) }

  /** No request follows one whose answer did not pass. */
  ghost predicate StopsAtFailure(t: Trace) { forall i :: 0 <= i < |t| - 1 ==> Passable(t[i]) }

  lemma Joined(s: Trace, t: Trace)
    requires AllPassable(s)
    ensures StopsAtFailure(t) ==> StopsAtFailure(s + t)
    ensures AllPassable(t) ==> AllPassable(s + t) && StopsAtFailure(s + t)
  {
  }

  // ----- Power -----

  /** A read of the system whose status is screened. */
  predicate ScreenedRead(e: Event) { e.request == GetSystem && e.screening == Success }

  predicate Observes(e: Event, p: PowerState) {
    ScreenedRead(e) && Accepted(e.response) && e.response.power == Some(p)
  }

  /** Polls of the system, the last of which observes p. */
  ghost predicate WaitedFor(t: Trace, p: PowerState) {
    t != [] && Observes(t[|t| - 1], p) && forall e :: e in t ==> ScreenedRead(e)
  }

  ghost predicate Switched(t: Trace, kind: ResetKind, p: PowerState) {
    t != [] && t[0].request == Reset(kind) && Accepted(t[0].response) && WaitedFor(t[1..], p)
  }

  /** Switched off, observed off, switched on, observed on. */
  ghost predicate Rebooted(t: Trace) {
    exists k :: 0 <= k <= |t| && Switched(t[..k], ForceOff, PowerOff) && Switched(t[k..], SwitchOn, PowerOn)
  }

  /** The host is only switched on right after it was observed off. */
  ghost predicate OnOnlyAfterOff(t: Trace) {
    forall i :: 0 <= i < |t| && t[i].request == Reset(SwitchOn) ==> i > 0 && Observes(t[i - 1], PowerOff)
  }

  /** The host was read as off, or was switched off, or refused as being off already. */
  ghost predicate HostOff(t: Trace) {
    && t != [] && ScreenedRead(t[0]) && Accepted(t[0].response)
    && ((|t| == 1 && Observes(t[0], PowerOff))
        || Switched(t[1..], ForceOff, PowerOff)
        || (|t| == 2 && t[1].request == Reset(ForceOff) && Conflict(t[1].response)))
  }

  // ----- Devices: a media id under a manager -----

  predicate About(e: Event, manager: string, media: string) {
    && (e.request.GetMedia? || e.request.EjectMedia? || e.request.InsertMedia?)
    && e.request.manager == manager && e.request.media == media
  }

  /** The last thing the trace shows about the device is that nothing is inserted. */
  ghost predicate SeenEmpty(t: Trace, manager: string, media: string) {
    exists i :: 0 <= i < |t| && EmptyAt(t, i, manager, media)
  }

  ghost predicate EmptyAt(t: Trace, i: nat, manager: string, media: string)
    requires i < |t|
  {
    && t[i].request == GetMedia(manager, media)
    && Accepted(t[i].response) && !t[i].response.inserted
    && forall j :: i < j < |t| ==> !About(t[j], manager, media)
  }

  /** Event e reads the system and shows its manager. */
  predicate NamesManager(e: Event, screening: Screening, manager: string) {
    e.request == GetSystem && e.screening == screening && Passable(e) && e.response.manager == Some(manager)
  }

  /** The trace starts with a lookup of the manager and the list of its devices. */
  predicate ListsDevices(t: Trace, screening: Screening, manager: string) {
    && |t| >= 2 && NamesManager(t[0], screening, manager)
    && t[1].request == ListMedia(manager) && t[1].screening == Success && Accepted(t[1].response)
  }

  /** A read or an eject of one of the listed devices. */
  predicate ReadsOrEjects(e: Event, manager: string, members: seq<string>) {
    && (e.request.GetMedia? || e.request.EjectMedia?)
    && e.request.manager == manager && e.request.media in members
  }

  /** The devices of the manager are listed, and each is seen empty. */
  ghost predicate AllEjected(t: Trace, manager: string) {
    && ListsDevices(t, NoClientError, manager)
    && (forall m :: m in t[1].response.members ==> SeenEmpty(t, manager, m))
    && (forall e :: e in t[2..] ==> ReadsOrEjects(e, manager, t[1].response.members))
  }

  /** A device is ejected only right after it was read as holding something. */
  ghost predicate EjectsInserted(t: Trace) {
    forall i :: 0 <= i < |t| && t[i].request.EjectMedia? ==> i > 0 && ShownInserted(t[i - 1], t[i].request)
  }

  predicate ShownInserted(e: Event, eject: Request)
    requires eject.EjectMedia?
  {
    e.request == GetMedia(eject.manager, eject.media) && Accepted(e.response) && e.response.inserted
  }

  predicate IsDisc(mediaType: string) { mediaType == "CD" || mediaType == "DVD" }

  function FirstDisc(types: seq<string>): Option<string> {
    if types == [] then None else if IsDisc(types[0]) then Some(types[0]) else FirstDisc(types[1..])
  }

  /** Event e reads the device and shows the first disc type it offers, if any. */
  predicate ShowsDisc(e: Event, manager: string, media: string, disc: Option<string>) {
    && e.request == GetMedia(manager, media) && Accepted(e.response)
    && e.response.mediaTypes.Some? && FirstDisc(e.response.mediaTypes.value) == disc
  }

  /** The search through the devices of the manager ends at the first one that offers a disc type. */
  ghost predicate FoundDisc(t: Trace, manager: string, media: string, mediaType: string) {
    && |t| >= 3 && ListsDevices(t, Success, manager) && |t| - 2 <= |t[1].response.members|
    && (forall i :: 2 <= i < |t| - 1 ==> ShowsDisc(t[i], manager, t[1].response.members[i - 2], None))
    && media == t[1].response.members[|t| - 3]
    && ShowsDisc(t[|t| - 1], manager, media, Some(mediaType))
  }

  /** All devices are empty, a disc device is found, and the manager is looked up once more. */
  ghost predicate ReadyToInsert(t: Trace, manager: string, media: string) {
    exists a, emptied, searched, mediaType ::
      0 <= a < |t| && ReadyAt(t, a, emptied, searched, mediaType, manager, media)
  }

  ghost predicate ReadyAt(
    t: Trace, a: nat, emptied: string, searched: string, mediaType: string, manager: string, media: string)
    requires a < |t|
  {
    && AllEjected(t[..a], emptied) && FoundDisc(t[a..|t| - 1], searched, media, mediaType)
    && NamesManager(t[|t| - 1], NoClientError, manager)
  }

  /** The image is inserted after all that. */
  ghost predicate MediaSet(t: Trace, image: string) {
    && t != [] && t[|t| - 1].request.InsertMedia? && t[|t| - 1].request.image == image
    && Accepted(t[|t| - 1].response)
    && ReadyToInsert(t[..|t| - 1], t[|t| - 1].request.manager, t[|t| - 1].request.media)
  }

  function LowerChar(c: char): char {
    if 'A' <= c <= 'Z' then (c as int + 32) as char else c
  }

  /** strings.EqualFold, on text compared with "CD" or "DVD". */
  predicate EqualFold(a: string, b: string) {
    |a| == |b| && forall i :: 0 <= i < |a| ==> LowerChar(a[i]) == LowerChar(b[i])
  }

  /** A disc device is found, and the target is allowed and matches its type. */
  ghost predicate ReadyToBoot(t: Trace, target: string) {
    t != [] && exists manager, media, mediaType :: ReadyToBootFrom(t, target, manager, media, mediaType)
  }

  ghost predicate ReadyToBootFrom(t: Trace, target: string, manager: string, media: string, mediaType: string)
    requires t != []
  {
    var last := t[|t| - 1];
    && FoundDisc(t[..|t| - 1], manager, media, mediaType)
    && last.request == GetSystem && last.screening == NoClientError && Passable(last)
    && FirstMatch(last.response.bootTargets, mediaType, target)
  }

  /** target is the first of the allowed ones that equals the type, ignoring case. */
  ghost predicate FirstMatch(targets: seq<string>, mediaType: string, target: string) {
    exists i :: 0 <= i < |targets| && targets[i] == target && EqualFold(target, mediaType) &&
                forall j :: 0 <= j < i ==> !EqualFold(targets[j], mediaType)
  }

  ghost predicate BootSourceSet(t: Trace) {
    && t != [] && t[|t| - 1].request.SetBoot? && Accepted(t[|t| - 1].response)
    && ReadyToBoot(t[..|t| - 1], t[|t| - 1].request.target)
  }

  /** A complete remote-direct run. */
  ghost predicate Bootstrapped(t: Trace, image: string) {
    exists a, b, c :: 0 <= a <= b <= c <= |t| && BootstrappedAt(t, image, a, b, c)
  }

  ghost predicate BootstrappedAt(t: Trace, image: string, a: nat, b: nat, c: nat)
    requires a <= b <= c <= |t|
  {
    && HostOff(t[..a]) && MediaSet(t[a..b], image) && BootSourceSet(t[b..c])
    && Switched(t[c..], SwitchOn, PowerOn)
  }

  // ----- Why a call gives up although all answers pass -----

  /** Polls, as many as are allowed, none of which shows p. */
  ghost predicate TimedOut(t: Trace, p: PowerState, retries: int) {
    && |t| == PowerPolls(retries)
    && forall i :: 0 <= i < |t| ==> ScreenedRead(t[i]) && t[i].response.power != Some(p)
  }

  ghost predicate SwitchTimedOut(t: Trace, kind: ResetKind, p: PowerState, retries: int) {
    t != [] && t[0].request == Reset(kind) && Accepted(t[0].response) && TimedOut(t[1..], p, retries)
  }

  /** Off takes too long, or on does once the host was observed off. */
  ghost predicate RebootTimedOut(t: Trace, retries: int) {
    || SwitchTimedOut(t, ForceOff, PowerOff, retries)
    || exists k :: 0 <= k <= |t| && Switched(t[..k], ForceOff, PowerOff)
                   && SwitchTimedOut(t[k..], SwitchOn, PowerOn, retries)
  }

  /** The device holds something, is ejected, and holds something at every poll that is allowed. */
  ghost predicate StuckDevice(t: Trace, manager: string, media: string, retries: int) {
    && |t| == EjectPolls(retries) + 2 && t[1].request == EjectMedia(manager, media)
    && forall i :: 0 <= i < |t| && i != 1 ==> t[i].request == GetMedia(manager, media) && t[i].response.inserted
  }

  /** The events end with a listed device that is stuck. */
  ghost predicate EjectStuck(t: Trace, manager: string, retries: int) {
    && ListsDevices(t, NoClientError, manager)
    && exists a, media ::
         2 <= a <= |t| && media in t[1].response.members && StuckDevice(t[a..], manager, media, retries)
  }

  /** The whole list was searched, and no device offered a disc type. */
  ghost predicate NoDisc(t: Trace, manager: string) {
    && ListsDevices(t, Success, manager) && |t| == 2 + |t[1].response.members|
    && forall i :: 2 <= i < |t| ==> ShowsDisc(t[i], manager, t[1].response.members[i - 2], None)
  }

  /** A device is stuck, or all are empty and none offers a disc type. */
  ghost predicate MediaStuck(t: Trace, retries: int) {
    || (exists manager :: EjectStuck(t, manager, retries))
    || exists a, emptied, searched :: 0 <= a <= |t| && AllEjected(t[..a], emptied) && NoDisc(t[a..], searched)
  }

  /** A disc device is found, but none of the allowed targets matches its type. */
  ghost predicate NoTarget(t: Trace, manager: string, media: string, mediaType: string) {
    t != [] &&
    var last := t[|t| - 1];
    && FoundDisc(t[..|t| - 1], manager, media, mediaType)
    && last.request == GetSystem && last.screening == NoClientError
    && forall i :: 0 <= i < |last.response.bootTargets| ==> !EqualFold(last.response.bootTargets[i], mediaType)
  }

  ghost predicate BootStuck(t: Trace) {
    || (exists manager :: NoDisc(t, manager))
    || exists manager, media, mediaType :: NoTarget(t, manager, media, mediaType)
  }

  /** Off takes too long; or the host is off, and there is no image or nothing to put it into. */
  ghost predicate StuckBeforeImage(t: Trace, image: string, retries: int) {
    || (t != [] && SwitchTimedOut(t[1..], ForceOff, PowerOff, retries))
    || (HostOff(t) && image == "")
    || exists a :: 0 <= a <= |t| && HostOff(t[..a]) && MediaStuck(t[a..], retries)
  }

  /** The image is in, and there is nothing to boot from, or on takes too long. */
  ghost predicate StuckAfterImage(t: Trace, image: string, retries: int) {
    exists a, b :: 0 <= a <= b <= |t| && HostOff(t[..a]) && MediaSet(t[a..b], image) && BootOrOnStuck(t[b..], retries)
  }

  ghost predicate BootOrOnStuck(t: Trace, retries: int) {
    || BootStuck(t)
    || exists c :: 0 <= c <= |t| && BootSourceSet(t[..c]) && SwitchTimedOut(t[c..], SwitchOn, PowerOn, retries)
  }

  /** The last answer passed, but has nothing behind the pointer that the client follows. */
  ghost predicate EndsInCrash(t: Trace) {
    t != [] &&
    var last := t[|t| - 1];
    || (last.request == GetSystem && last.response.manager.None?)
    || (last.request.GetMedia? && last.response.mediaTypes.None?)
  }

  lemma CrashAfter(s: Trace, t: Trace)
    requires EndsInCrash(t)
    ensures EndsInCrash(s + t)
  {
  }

  lemma PassableParts(s: Trace, t: Trace)
    requires AllPassable(s + t)
    ensures AllPassable(s) && AllPassable(t)
  {
    forall e | e in s ensures Passable(e) { assert e in s + t; }
    forall e | e in t ensures Passable(e) { assert e in s + t; }
  }

  // ----- What every run keeps, however it ends -----

  ghost predicate InsertJustified(t: Trace, image: string, insert: Request)
    requires insert.InsertMedia?
  {
    insert.image == image &&
    exists a :: 0 <= a <= |t| && HostOff(t[..a]) && ReadyToInsert(t[a..], insert.manager, insert.media)
  }

  ghost predicate BootJustified(t: Trace, image: string, target: string) {
    exists a, b :: 0 <= a <= b <= |t| && HostOff(t[..a]) && MediaSet(t[a..b], image) && ReadyToBoot(t[b..], target)
  }

  ghost predicate OnJustified(t: Trace, image: string) {
    exists a, b :: 0 <= a <= b <= |t| && HostOff(t[..a]) && MediaSet(t[a..b], image) && BootSourceSet(t[b..])
  }

  /** The host is switched off only right after it was read as not being off. */
  predicate OffJustified(t: Trace) {
    |t| == 1 && ScreenedRead(t[0]) && Accepted(t[0].response) && t[0].response.power != Some(PowerOff)
  }

  /** All that must come before a request, after the events of t. */
  ghost predicate Justified(t: Trace, image: string, request: Request) {
    match request
    case InsertMedia(_, _, _) => InsertJustified(t, image, request)
    case SetBoot(target) => BootJustified(t, image, target)
    case Reset(kind) => if kind == SwitchOn then OnJustified(t, image) else OffJustified(t)
    case EjectMedia(_, _) => t != [] && ShownInserted(t[|t| - 1], request)
    case _ => true
  }

  ghost predicate AllJustified(t: Trace, image: string) {
    forall i :: 0 <= i < |t| ==> Justified(t[..i], image, t[i].request)
  }

  // ----- Which device gets the image -----

  /**
   * The image goes into the device that the search has seen exactly when the
   * lookup before the insert shows the manager of the search again.
   */
  lemma {:induction false} ImageIntoSeenDevice(
    t: Trace, a: nat, emptied: string, searched: string, mediaType: string, manager: string, media: string)
    requires a < |t| && ReadyAt(t, a, emptied, searched, mediaType, manager, media)
    ensures GetMedia(manager, media) == t[|t| - 2].request <==> t[|t| - 1].response.manager == t[a].response.manager
  {
    var found := t[a..|t| - 1];
    assert found[|found| - 1] == t[|t| - 2] && found[0] == t[a];
  }

  /**
   * That device was seen empty exactly when the lookup before the insert shows
   * the manager whose devices were emptied, and its list held the device.
   */
  lemma {:induction false} ImageIntoEmptiedDevice(
    t: Trace, a: nat, emptied: string, searched: string, mediaType: string, manager: string, media: string)
    requires a < |t| && ReadyAt(t, a, emptied, searched, mediaType, manager, media)
    ensures SeenEmpty(t[..a], manager, media) <==>
            t[|t| - 1].response.manager == t[0].response.manager && media in t[1].response.members
  {
    var ejected := t[..a];
    if SeenEmpty(ejected, manager, media) {
      var i :| 0 <= i < |ejected| && EmptyAt(ejected, i, manager, media);
      assert i >= 2 && ejected[i] == ejected[2..][i - 2];
      assert ejected[2..][i - 2] in ejected[2..];
    }
  }

  ghost function Answer(members: seq<string>, manager: string, types: seq<string>): Response {
    Response(Some(200), false, None, Some(manager), [], members, false, Some(types))
  }

  /** The answers of a controller that names another manager at the last lookup. */
  ghost function OtherManager(a: string, b: string, media: string, image: string): Trace {
    [Event(GetSystem, NoClientError, Answer([], a, [])), Event(ListMedia(a), Success, Answer([], a, [])),
     Event(GetSystem, Success, Answer([], a, [])), Event(ListMedia(a), Success, Answer([media], a, [])),
     Event(GetMedia(a, media), Success, Answer([], a, ["CD"])),
     Event(GetSystem, NoClientError, Answer([], b, [])),
     Event(InsertMedia(b, media, image), Success, Answer([], b, []))]
  }

  /** With such answers the image goes into a device that was neither searched nor emptied. */
  lemma {:induction false} OtherManagerGetsImage(a: string, b: string, media: string, image: string)
    requires a != b
    ensures
      var t := OtherManager(a, b, media, image);
      && MediaSet(t, image) && AllPassable(t)
      && forall i :: 0 <= i < |t| - 1 ==> !About(t[i], b, media)
  {
    var t := OtherManager(a, b, media, image);
    var s := t[..6];
    assert s[..2] == t[..2] && s[2..5] == t[2..5];
    assert AllEjected(t[..2], a);
    assert FirstDisc(["CD"]) == Some("CD");
    assert FoundDisc(t[2..5], a, media, "CD");
    hide AllEjected, FoundDisc;
    assert ReadyAt(s, 2, a, a, "CD", b, media);
  }

  // ----- What a complete run means for its events -----

  /** The host is known to be off at event i. */
  ghost predicate OffAt(t: Trace, i: nat)
    requires i < |t|
  {
    Observes(t[i], PowerOff) || (t[i].request == Reset(ForceOff) && Conflict(t[i].response))
  }

  /** Event i shows that nothing is inserted in the device. */
  ghost predicate ShownEmpty(t: Trace, i: nat, manager: string, media: string)
    requires i < |t|
  {
    t[i].request == GetMedia(manager, media) && Accepted(t[i].response) && !t[i].response.inserted
  }

  ghost predicate EmptyBetween(t: Trace, from: nat, end: nat, manager: string, media: string)
    requires from < end <= |t|
  {
    exists i :: from < i < end && ShownEmpty(t, i, manager, media)
  }

  /** Event list lists the devices of a manager, and before event end each of them is shown empty. */
  ghost predicate Emptied(t: Trace, list: nat, end: nat)
    requires list < end <= |t|
  {
    && t[list].request.ListMedia? && Accepted(t[list].response)
    && forall m :: m in t[list].response.members ==> EmptyBetween(t, list, end, t[list].request.manager, m)
  }

  /**
   * Event disc shows a device that offers a disc type, and event ins puts the
   * image into the device of the same id, under the manager that the event
   * before names.
   */
  ghost predicate DiscUsed(t: Trace, image: string, disc: nat, ins: nat)
    requires disc < ins < |t|
  {
    && Accepted(t[disc].response) && TypeAt(t, disc).Some?
    && t[ins].request.InsertMedia? && t[ins].request.media == t[disc].request.media
    && NamesManager(t[ins - 1], NoClientError, t[ins].request.manager)
    && t[ins].request.image == image && Accepted(t[ins].response)
  }

  /** The disc type that event i shows a device to offer. */
  ghost function TypeAt(t: Trace, i: nat): Option<string>
    requires i < |t|
  {
    if t[i].request.GetMedia? && t[i].response.mediaTypes.Some? then FirstDisc(t[i].response.mediaTypes.value) else None
  }

  /** Event again shows a device that offers a disc type, and an allowed boot target that matches it is set. */
  ghost predicate BootsFromDisc(t: Trace, again: nat, boot: nat)
    requires again < boot < |t|
  {
    && Accepted(t[again].response) && TypeAt(t, again).Some?
    && t[boot].request.SetBoot? && Accepted(t[boot].response)
    && t[boot].request.target in t[boot - 1].response.bootTargets
    && EqualFold(t[boot].request.target, TypeAt(t, again).value)
  }

  ghost predicate InOrder(
    t: Trace, image: string, off: nat, list: nat, disc: nat, ins: nat, again: nat, boot: nat, on: nat)
  {
    && off < list < disc < ins < again < boot < on < |t|
    && OffAt(t, off) && Emptied(t, list, disc) && DiscUsed(t, image, disc, ins) && BootsFromDisc(t, again, boot)
    && t[on].request == Reset(SwitchOn) && Accepted(t[on].response)
    && on < |t| - 1 && Observes(t[|t| - 1], PowerOn)
  }

  lemma {:induction false} FirstDiscIsDisc(types: seq<string>)
    ensures FirstDisc(types).Some? ==> IsDisc(FirstDisc(types).value)
  {
    if types != [] {
      FirstDiscIsDisc(types[1..]);
    }
  }

  lemma {:induction false} MediaFacts(t: Trace, image: string) returns (disc: nat)
    requires MediaSet(t, image)
    ensures 1 < disc < |t| - 1 && DiscUsed(t, image, disc, |t| - 1) && Emptied(t, 1, disc)
  {
    hide SeenEmpty, IsDisc, AllEjected, Emptied, FirstDisc, Accepted;
    var s := t[..|t| - 1];
    var a, emptied, searched, mediaType :| 0 <= a < |s| &&
      ReadyAt(s, a, emptied, searched, mediaType, t[|t| - 1].request.manager, t[|t| - 1].request.media);
    disc := |t| - 3;
    var found := s[a..|s| - 1];
    assert found[|found| - 1] == t[disc] && s[|s| - 1] == t[|t| - 2] && s[..a] == t[..a];
    EjectedEmptied(t, a, disc, emptied);
  }

  lemma {:induction false} EjectedEmptied(t: Trace, a: nat, end: nat, manager: string)
    requires a <= end <= |t| && 1 < end && AllEjected(t[..a], manager)
    ensures Emptied(t, 1, end)
  {
    var ejected := t[..a];
    forall m | m in t[1].response.members ensures EmptyBetween(t, 1, end, manager, m) {
      assert SeenEmpty(ejected, manager, m);
      var i :| 0 <= i < |ejected| && EmptyAt(ejected, i, manager, m);
      assert ejected[i] == t[i] && ShownEmpty(t, i, manager, m);
    }
  }

  lemma {:induction false} EmptiedLater(t: Trace, a: nat, b: nat, list: nat, end: nat)
    requires a <= b <= |t| && list < end <= b - a && Emptied(t[a..b], list, end)
    ensures Emptied(t, a + list, a + end)
  {
    var first, manager := a + list, t[a + list].request.manager;
    forall m | m in t[first].response.members ensures EmptyBetween(t, first, a + end, manager, m) {
      assert EmptyBetween(t[a..b], list, end, manager, m);
      var i :| list < i < end && ShownEmpty(t[a..b], i, manager, m);
      assert ShownEmpty(t, a + i, manager, m);
    }
  }

  lemma {:induction false} BootFacts(t: Trace)
    requires BootSourceSet(t)
    ensures |t| >= 3 && BootsFromDisc(t, |t| - 3, |t| - 1)
  {
    hide FirstDisc, EqualFold;
    var s, target := t[..|t| - 1], t[|t| - 1].request.target;
    var manager, media, mediaType :| ReadyToBootFrom(s, target, manager, media, mediaType);
    var found := s[..|s| - 1];
    assert found[|found| - 1] == t[|t| - 3] && s[|s| - 1] == t[|t| - 2];
  }

  /**
   * In a complete run, first the host is known to be off, then every device
   * that a manager lists is seen empty, then the image goes into the device of
   * an id seen as CD or DVD, then a device is seen as CD or DVD once more, then
   * a boot target that was allowed and matches its type is set, then the host is
   * switched on, and last it is observed on; each of these requests is accepted.
   */
  lemma {:induction false} BootstrapOrder(t: Trace, image: string)
    requires Bootstrapped(t, image)
    ensures exists off, list, disc, ins, again, boot, on :: InOrder(t, image, off, list, disc, ins, again, boot, on)
  {
    hide Bootstrapped, HostOff, MediaSet, BootSourceSet, Switched, OffAt, Emptied, DiscUsed, BootsFromDisc, Observes;
    var a, b, c := BootstrapParts(t, image);
    HostOffEnds(t, a);
    var disc := MediaFacts(t[a..b], image);
    DiscLater(t, a, b, image, disc);
    EmptiedLater(t, a, b, 1, disc);
    BootFacts(t[b..c]);
    BootLater(t, b, c);
    SwitchEnds(t, c);
    assert InOrder(t, image, a - 1, a + 1, a + disc, b - 1, c - 3, c - 1, c);
  }

  lemma BootstrapParts(t: Trace, image: string) returns (a: nat, b: nat, c: nat)
    requires Bootstrapped(t, image)
    ensures a <= b <= c <= |t| && HostOff(t[..a]) && MediaSet(t[a..b], image) && BootSourceSet(t[b..c])
    ensures Switched(t[c..], SwitchOn, PowerOn)
  {
    hide HostOff, MediaSet, BootSourceSet, Switched;
    a, b, c :| 0 <= a <= b <= c <= |t| && BootstrappedAt(t, image, a, b, c);
  }

  lemma DiscLater(t: Trace, a: nat, b: nat, image: string, disc: nat)
    requires a <= b <= |t| && disc < b - a - 1 && DiscUsed(t[a..b], image, disc, b - a - 1)
    ensures DiscUsed(t, image, a + disc, b - 1)
  {
    hide FirstDisc;
    assert t[a..b][disc] == t[a + disc] && t[a..b][b - a - 1] == t[b - 1] && t[a..b][b - a - 2] == t[b - 2];
  }

  lemma BootLater(t: Trace, b: nat, c: nat)
    requires b + 3 <= c <= |t| && BootsFromDisc(t[b..c], c - b - 3, c - b - 1)
    ensures BootsFromDisc(t, c - 3, c - 1)
  {
    hide FirstDisc, EqualFold;
    var s := t[b..c];
    assert s[c - b - 1] == t[c - 1] && s[c - b - 2] == t[c - 2] && s[c - b - 3] == t[c - 3];
  }

  lemma SwitchEnds(t: Trace, c: nat)
    requires c <= |t| && Switched(t[c..], SwitchOn, PowerOn)
    ensures c < |t| - 1 && t[c].request == Reset(SwitchOn) && Accepted(t[c].response)
    ensures Observes(t[|t| - 1], PowerOn)
  {
    assert t[c..][0] == t[c] && t[c..][1..][|t| - c - 2] == t[|t| - 1];
  }

  lemma HostOffEnds(t: Trace, a: nat)
    requires a <= |t| && HostOff(t[..a])
    ensures a > 0 && OffAt(t, a - 1)
  {
  }

  // ----- Whether the host boots from the image -----

  /**
   * The boot target matches the type of the device that was searched for the
   * image exactly when the second search has ended at that type as well.
   */
  lemma {:induction false} BootTypeExact(
    t: Trace, image: string, off: nat, list: nat, disc: nat, ins: nat, again: nat, boot: nat, on: nat)
    requires InOrder(t, image, off, list, disc, ins, again, boot, on)
    ensures EqualFold(t[boot].request.target, TypeAt(t, disc).value) <==> TypeAt(t, again) == TypeAt(t, disc)
  {
    FirstDiscIsDisc(t[disc].response.mediaTypes.value);
    FirstDiscIsDisc(t[again].response.mediaTypes.value);
  }

  /** Both searches get the same answers, as far as both go. */
  ghost predicate SameAnswers(f: Trace, g: Trace) {
    forall i :: 0 <= i < |f| && i < |g| ==>
      && f[i].response.manager == g[i].response.manager && f[i].response.members == g[i].response.members
      && f[i].response.mediaTypes == g[i].response.mediaTypes
  }

  /** Then they end at the same device with the same type. */
  lemma {:induction false} SameAnswersSameDisc(
    f: Trace, manager: string, media: string, mediaType: string,
    g: Trace, manager': string, media': string, mediaType': string)
    requires FoundDisc(f, manager, media, mediaType) && FoundDisc(g, manager', media', mediaType') && SameAnswers(f, g)
    ensures manager == manager' && media == media' && mediaType == mediaType' && |f| == |g|
  {
    NotLonger(f, manager, media, mediaType, g, manager', media', mediaType');
    NotLonger(g, manager', media', mediaType', f, manager, media, mediaType);
    hide FirstDisc;
  }

  lemma NotLonger(
    f: Trace, manager: string, media: string, mediaType: string,
    g: Trace, manager': string, media': string, mediaType': string)
    requires FoundDisc(f, manager, media, mediaType) && FoundDisc(g, manager', media', mediaType') && SameAnswers(f, g)
    ensures |g| <= |f|
  {
    hide FirstDisc;
    assert ShowsDisc(f[|f| - 1], manager, media, Some(mediaType));
    if |f| < |g| {
      assert false;
    }
  }

  ghost function Full(types: seq<string>, targets: seq<string>, members: seq<string>, power: PowerState): Response {
    Response(Some(200), false, Some(power), Some("m"), targets, members, false, Some(types))
  }

  ghost function Plain(): Response { Full([], ["Dvd"], [], PowerOff) }

  ghost function Searched(members: seq<string>, media: string, mediaType: string): Trace {
    [Event(GetSystem, Success, Plain()), Event(ListMedia("m"), Success, Full([], [], members, PowerOff)),
     Event(GetMedia("m", media), Success, Full([mediaType], [], [], PowerOff))]
  }

  ghost function ImageInserted(cd: string, dvd: string, image: string): Trace {
    [Event(GetSystem, NoClientError, Plain()), Event(ListMedia("m"), Success, Plain())]
    + Searched([cd, dvd], cd, "CD")
    + [Event(GetSystem, NoClientError, Plain()), Event(InsertMedia("m", cd, image), Success, Plain())]
  }

  ghost function BootChosen(cd: string, dvd: string): Trace {
    Searched([dvd, cd], dvd, "DVD")
    + [Event(GetSystem, NoClientError, Plain()), Event(SetBoot("Dvd"), Success, Plain().(status := Some(204)))]
  }

  /** The answers of a controller whose second list of devices has another one first. */
  ghost function OtherDevice(cd: string, dvd: string, image: string): Trace {
    [Event(GetSystem, Success, Plain())] + ImageInserted(cd, dvd, image) + BootChosen(cd, dvd)
    + [Event(Reset(SwitchOn), Success, Plain()), Event(GetSystem, Success, Full([], [], [], PowerOn))]
  }

  /** With such answers a complete run inserts the image into a device seen as CD and sets DVD as the boot target. */
  lemma {:induction false} OtherTypeBoots(cd: string, dvd: string, image: string)
    ensures
      var t := OtherDevice(cd, dvd, image);
      && Bootstrapped(t, image) && AllPassable(t)
      && InOrder(t, image, 0, 2, 5, 7, 10, 12, 13)
      && !EqualFold(t[12].request.target, TypeAt(t, 5).value)
  {
    var t := OtherDevice(cd, dvd, image);
    OtherRun(cd, dvd, image);
    hide Bootstrapped;
    assert FirstDisc(["CD"]) == Some("CD") && FirstDisc(["DVD"]) == Some("DVD");
    assert Emptied(t, 2, 5);
    assert DiscUsed(t, image, 5, 7);
    assert BootsFromDisc(t, 10, 12);
  }

  lemma OtherRun(cd: string, dvd: string, image: string)
    ensures Bootstrapped(OtherDevice(cd, dvd, image), image)
  {
    var t := OtherDevice(cd, dvd, image);
    OtherMedia(cd, dvd, image);
    OtherBoot(cd, dvd);
    assert t[1..8] == ImageInserted(cd, dvd, image) && t[8..13] == BootChosen(cd, dvd);
    assert HostOff(t[..1]);
    assert t[13..] == [t[13], t[14]] && t[13..][1..] == [t[14]];
    hide MediaSet, BootSourceSet, HostOff, ImageInserted, BootChosen;
    assert BootstrappedAt(t, image, 1, 8, 13);
  }

  lemma SearchFound(members: seq<string>, media: string, mediaType: string)
    requires |members| > 0 && members[0] == media && IsDisc(mediaType)
    ensures FoundDisc(Searched(members, media, mediaType), "m", media, mediaType)
  {
    assert FirstDisc([mediaType]) == Some(mediaType);
  }

  lemma OtherMedia(cd: string, dvd: string, image: string)
    ensures MediaSet(ImageInserted(cd, dvd, image), image)
  {
    var t := ImageInserted(cd, dvd, image);
    var s := t[..6];
    SearchFound([cd, dvd], cd, "CD");
    hide FoundDisc;
    assert s[2..5] == Searched([cd, dvd], cd, "CD");
    assert AllEjected(s[..2], "m");
    assert ReadyAt(s, 2, "m", "m", "CD", "m", cd);
  }

  lemma OtherBoot(cd: string, dvd: string)
    ensures BootSourceSet(BootChosen(cd, dvd))
  {
    var t := BootChosen(cd, dvd);
    var s := t[..4];
    SearchFound([dvd, cd], dvd, "DVD");
    hide FoundDisc;
    assert s[..3] == Searched([dvd, cd], dvd, "DVD");
    assert Plain().bootTargets[0] == "Dvd" && FirstMatch(Plain().bootTargets, "DVD", "Dvd");
    assert ReadyToBootFrom(s, "Dvd", "m", dvd, "DVD");
  }

  // ----- Sizes -----

  /** The most devices that any answer in the trace lists. */
  ghost function Largest(t: Trace): nat {
    if t == [] then 0 else
    var rest := Largest(t[..|t| - 1]);
    var here := |t[|t| - 1].response.members|;
    if rest < here then here else rest
  }

  lemma {:induction false} LargestBounds(t: Trace, i: nat)
    requires i < |t|
    ensures |t[i].response.members| <= Largest(t)
  {
    if i < |t| - 1 {
      LargestBounds(t[..|t| - 1], i);
    }
  }

  lemma {:induction false} LargestGrows(t: Trace, more: Trace)
    ensures Largest(t) <= Largest(t + more)
    decreases |more|
  {
    if more == [] {
      assert t + more == t;
    } else {
      assert (t + more)[..|t + more| - 1] == t + more[..|more| - 1];
      LargestGrows(t, more[..|more| - 1]);
    }
  }

  lemma {:induction false} LargestParts(s: Trace, t: Trace)
    ensures Largest(s) <= Largest(s + t) && Largest(t) <= Largest(s + t)
    decreases |t|
  {
    LargestGrows(s, t);
    if t != [] {
      assert (s + t)[..|s + t| - 1] == s + t[..|t| - 1];
      LargestParts(s, t[..|t| - 1]);
    }
  }

  lemma MulMonotone(a: nat, b: nat, c: nat)
    requires a <= b
    ensures a * c <= b * c
  {
  }

  lemma {:induction false} SeenEmptyLater(t: Trace, more: Trace, manager: string, media: string)
    requires SeenEmpty(t, manager, media) && forall e :: e in more ==> !About(e, manager, media)
    ensures SeenEmpty(t + more, manager, media)
  {
    var i :| 0 <= i < |t| && EmptyAt(t, i, manager, media);
    forall j | i < j < |t + more| ensures !About((t + more)[j], manager, media) {
      if |t| <= j {
        assert (t + more)[j] in more;
      }
    }
    assert EmptyAt(t + more, i, manager, media);
  }

  /** Polls of one power wait, and of one wait for an ejected device. */
  function PowerPolls(retries: int): nat { if retries < 0 then 0 else retries + 1 }

  function EjectPolls(retries: int): nat { if retries < 0 then 0 else retries }

  // Requests that a call sends at most, where no answer lists more than d devices.

  function EjectBudget(d: nat, retries: int): nat { 2 + d * (EjectPolls(retries) + 2) }

  function SearchBudget(d: nat): nat { 2 + d }

  function MediaBudget(d: nat, retries: int): nat { EjectBudget(d, retries) + SearchBudget(d) + 2 }

  function BootBudget(d: nat): nat { SearchBudget(d) + 2 }

  function SwitchBudget(retries: int): nat { 1 + PowerPolls(retries) }

  function RunBudget(d: nat, retries: int): nat {
    1 + SwitchBudget(retries) + MediaBudget(d, retries) + BootBudget(d) + SwitchBudget(retries)
  }

  /** For retries of zero or more, a whole run sends at most 15 + 2 retries + d (retries + 4) requests. */
  lemma RunBudgetFormula(d: nat, retries: nat)
    ensures RunBudget(d, retries) == 15 + 2 * retries + d * (retries + 4)
  {
  }

  lemma BudgetsGrow(d: nat, d': nat, retries: int)
    requires d <= d'
    ensures EjectBudget(d, retries) <= EjectBudget(d', retries)
    ensures MediaBudget(d, retries) <= MediaBudget(d', retries)
  {
  }
}
