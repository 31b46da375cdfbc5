/** The Redfish client against an arbitrary controller (pkg/remote/redfish/client.go). */
module RedfishClient {
  import opened Wrappers
  import opened RedfishTraces

  /** Crashed stands for following a missing pointer in an answer. */
  datatype Outcome = Done | Failed | Crashed

  /** The events t of one call: none but the last may be a failure, and after Done none is. */
  ghost predicate Orderly(t: Trace, outcome: Outcome) {
    StopsAtFailure(t) && (outcome == Done ==> AllPassable(t))
  }

  /** Every method also returns, as a ghost, the events it has added to the trace. */
  class Client {
    /** The controller: its answer may depend on everything that went before. */
    const controller: (Trace, Request) -> Response
    const retries: int
    var trace: Trace

    constructor (controller: (Trace, Request) -> Response, retries: int)
      ensures this.controller == controller && this.retries == retries && trace == []
    {
      this.controller := controller;
      this.retries := retries;
      trace := [];
    }

    /** screening says what the caller is going to look at in the answer. */
    method Send(request: Request, screening: Screening) returns (r: Response, ghost t: Trace)
      modifies this
      ensures r == controller(old(trace), request)
      ensures t == [Event(request, screening, r)] && trace == old(trace) + t
    {
      r := controller(trace, request);
      t := [Event(request, screening, r)];
      trace := trace + [Event(request, screening, r)];
    }

    /** At most retries+1 polls for a power state. */
    method WaitForPowerState(desired: PowerState) returns (outcome: Outcome, ghost t: Trace)
      modifies this
      ensures trace == old(trace) + t && Orderly(t, outcome) && outcome != Crashed
      ensures |t| <= PowerPolls(retries)
      ensures forall e :: e in t ==> ScreenedRead(e)
      ensures outcome == Done <==> AllPassable(t) && WaitedFor(t, desired)
      ensures outcome == Failed && AllPassable(t) ==> TimedOut(t, desired, retries)
    {
      var retry := 0;
      t := [];
      while retry <= retries
        invariant 0 <= retry <= PowerPolls(retries)
        invariant trace == old(trace) + t && |t| == retry && AllPassable(t)
        invariant forall i :: 0 <= i < |t| ==> ScreenedRead(t[i]) && t[i].response.power != Some(desired)
      {
        var system, e := Send(GetSystem, Success);
        t := t + e;
        if !Accepted(system) {
          assert e[0] in t;
          return Failed, t;
        }
        if system.power == Some(desired) {
          return Done, t;
        }
        retry := retry + 1;
      }
      return Failed, t;
    }

    method SystemPowerStatus() returns (outcome: Outcome, power: Option<PowerState>, ghost t: Trace)
      modifies this
      ensures trace == old(trace) + t && Orderly(t, outcome) && outcome != Crashed
      ensures |t| == 1 && ScreenedRead(t[0]) && (outcome == Done <==> Accepted(t[0].response))
      ensures power == t[0].response.power
    {
      var system;
      system, t := Send(GetSystem, Success);
      outcome, power := if Accepted(system) then Done else Failed, system.power;
    }

    /** A reset and then a wait; conflict tells whether the reset was refused with 409. */
    method Switch(kind: ResetKind, state: PowerState, screening: Screening)
      returns (outcome: Outcome, conflict: bool, ghost t: Trace)
      requires screening != NoClientError
      modifies this
      ensures trace == old(trace) + t && outcome != Crashed
      ensures StopsAtFailure(t) && (outcome == Done || (conflict && screening == SuccessOrConflict) ==> AllPassable(t))
      ensures 1 <= |t| <= SwitchBudget(retries) && t[0].request == Reset(kind) && t[0].screening == screening
      ensures forall e :: e in t[1..] ==> ScreenedRead(e)
      ensures conflict <==> Conflict(t[0].response)
      ensures outcome == Done ==> Switched(t, kind, state)
      ensures conflict ==> outcome == Failed && |t| == 1
      ensures outcome == Failed && !conflict && AllPassable(t) ==> SwitchTimedOut(t, kind, state, retries)
    {
      var reset;
      reset, t := Send(Reset(kind), screening);
      if !Accepted(reset) {
        assert t[0] in t;
        return Failed, Conflict(reset), t;
      }
      ghost var more;
      outcome, more := WaitForPowerState(state);
      Joined(t, more);
      if AllPassable(t + more) {
        PassableParts(t, more);
      }
      t, conflict := t + more, false;
      assert t[1..] == more;
    }

    /** A refusal with 409 means that the host is off already. */
    method SystemPowerOff() returns (outcome: Outcome, ghost t: Trace)
      modifies this
      ensures trace == old(trace) + t && Orderly(t, outcome) && outcome != Crashed
      ensures 1 <= |t| <= SwitchBudget(retries) && t[0].request == Reset(ForceOff)
      ensures forall e :: e in t[1..] ==> ScreenedRead(e)
      ensures outcome == Done ==>
                Switched(t, ForceOff, PowerOff) || (|t| == 1 && Conflict(t[0].response))
      ensures outcome == Failed && AllPassable(t) ==> SwitchTimedOut(t, ForceOff, PowerOff, retries)
    {
      var conflict;
      outcome, conflict, t := Switch(ForceOff, PowerOff, SuccessOrConflict);
      if conflict {
        outcome := Done;
      }
    }

    method SystemPowerOn() returns (outcome: Outcome, ghost t: Trace)
      modifies this
      ensures trace == old(trace) + t && Orderly(t, outcome) && outcome != Crashed
      ensures 1 <= |t| <= SwitchBudget(retries) && t[0].request == Reset(SwitchOn)
      ensures forall e :: e in t[1..] ==> ScreenedRead(e)
      ensures outcome == Done ==> Switched(t, SwitchOn, PowerOn)
      ensures outcome == Failed && AllPassable(t) ==> SwitchTimedOut(t, SwitchOn, PowerOn, retries)
    {
      var conflict;
      outcome, conflict, t := Switch(SwitchOn, PowerOn, Success);
      assert t[0] in t;
    }

    /** RebootSystem switches on only after the host was observed off. */
    method RebootSystem() returns (outcome: Outcome, ghost t: Trace)
      modifies this
      ensures trace == old(trace) + t && Orderly(t, outcome) && outcome != Crashed
      ensures |t| <= SwitchBudget(retries) + SwitchBudget(retries)
      ensures OnOnlyAfterOff(t)
      ensures outcome == Done ==> Rebooted(t)
      ensures outcome == Failed && AllPassable(t) ==> RebootTimedOut(t, retries)
    {
      var conflict;
      outcome, conflict, t := Switch(ForceOff, PowerOff, Success);
      OffOnly(t);
      assert t[0] in t;
      if outcome != Done {
        return;
      }
      ghost var off := t;
      ghost var on;
      outcome, conflict, on := Switch(SwitchOn, PowerOn, Success);
      Joined(off, on);
      t := off + on;
      OnAfterOff(off, on);
      assert t[..|off|] == off && t[|off|..] == on && on[0] in on;
      if AllPassable(t) {
        PassableParts(off, on);
      }
    }

    /** getManagerID: only the client error is looked at. */
    method ManagerID() returns (outcome: Outcome, manager: string, ghost t: Trace)
      modifies this
      ensures trace == old(trace) + t && Orderly(t, outcome) && |t| == 1
      ensures t[0].request == GetSystem && t[0].screening == NoClientError
      ensures outcome == Failed <==> t[0].response.clientError
      ensures outcome == Crashed <==> !t[0].response.clientError && t[0].response.manager.None?
      ensures outcome == Done ==> NamesManager(t[0], NoClientError, manager)
    {
      var system;
      system, t := Send(GetSystem, NoClientError);
      if system.clientError {
        return Failed, "", t;
      }
      if system.manager.None? {
        return Crashed, "", t;
      }
      return Done, system.manager.value, t;
    }

    /** GetManagerID: the answer is screened. */
    method ScreenedManagerID() returns (outcome: Outcome, manager: string, ghost t: Trace)
      modifies this
      ensures trace == old(trace) + t && Orderly(t, outcome) && |t| == 1 && ScreenedRead(t[0])
      ensures outcome == Failed <==> !Accepted(t[0].response)
      ensures outcome == Crashed <==> Accepted(t[0].response) && t[0].response.manager.None?
      ensures outcome == Done ==> NamesManager(t[0], Success, manager)
    {
      var system;
      system, t := Send(GetSystem, Success);
      if !Accepted(system) {
        return Failed, "", t;
      }
      if system.manager.None? {
        return Crashed, "", t;
      }
      return Done, system.manager.value, t;
    }

    method ListDevices(manager: string) returns (outcome: Outcome, members: seq<string>, ghost t: Trace)
      modifies this
      ensures trace == old(trace) + t && Orderly(t, outcome) && outcome != Crashed
      ensures |t| == 1 && t[0].request == ListMedia(manager) && t[0].screening == Success
      ensures members == t[0].response.members && (outcome == Done <==> Accepted(t[0].response))
    {
      var list;
      list, t := Send(ListMedia(manager), Success);
      outcome, members := if Accepted(list) then Done else Failed, list.members;
    }

    /** At most retries polls until the device is empty. */
    method WaitForEject(manager: string, media: string) returns (outcome: Outcome, ghost t: Trace)
      modifies this
      ensures trace == old(trace) + t && Orderly(t, outcome) && outcome != Crashed
      ensures |t| <= EjectPolls(retries)
      ensures forall e :: e in t ==> e.request == GetMedia(manager, media)
      ensures outcome == Done ==> EndsEmpty(t, manager, media)
      ensures outcome == Failed && AllPassable(t) ==>
                |t| == EjectPolls(retries) && forall i :: 0 <= i < |t| ==> t[i].response.inserted
    {
      var retry := 0;
      t := [];
      while retry < retries
        invariant 0 <= retry <= EjectPolls(retries)
        invariant trace == old(trace) + t && |t| == retry && AllPassable(t)
        invariant forall i :: 0 <= i < |t| ==> t[i].request == GetMedia(manager, media) && t[i].response.inserted
      {
        var device, e := Send(GetMedia(manager, media), Success);
        t := t + e;
        if !Accepted(device) {
          assert e[0] in t;
          return Failed, t;
        }
        if !device.inserted {
          return Done, t;
        }
        retry := retry + 1;
      }
      return Failed, t;
    }

    /** One turn of the loop over the devices. */
    method EjectDevice(manager: string, media: string) returns (outcome: Outcome, ghost t: Trace)
      modifies this
      ensures trace == old(trace) + t && Orderly(t, outcome) && outcome != Crashed
      ensures |t| <= EjectPolls(retries) + 2
      ensures forall e :: e in t ==> e.request == GetMedia(manager, media) || e.request == EjectMedia(manager, media)
      ensures EjectsInserted(t)
      ensures outcome == Done ==> EndsEmpty(t, manager, media)
      ensures outcome == Failed && AllPassable(t) ==> StuckDevice(t, manager, media, retries)
    {
      var device;
      device, t := Send(GetMedia(manager, media), Success);
      if !Accepted(device) {
        assert t[0] in t;
        return Failed, t;
      }
      if !device.inserted {
        return Done, t;
      }
      var ejected, e := Send(EjectMedia(manager, media), Success);
      t := t + e;
      if !Accepted(ejected) {
        assert e[0] in t;
        return Failed, t;
      }
      ghost var polls;
      outcome, polls := WaitForEject(manager, media);
      Joined(t, polls);
      EjectTurn(t, polls, manager, media, retries);
      t := t + polls;
    }

    /** A lookup of the manager and the list of its devices, as both loops over devices begin. */
    method LookUp(screening: Screening)
      returns (outcome: Outcome, manager: string, members: seq<string>, ghost t: Trace)
      requires screening != SuccessOrConflict
      modifies this
      ensures trace == old(trace) + t && Orderly(t, outcome) && 1 <= |t| <= 2 && Quiet(t) && EjectsInserted(t)
      ensures outcome == Failed ==> !AllPassable(t)
      ensures outcome == Crashed ==> EndsInCrash(t)
      ensures outcome == Done ==> ListsDevices(t, screening, manager) && |t| == 2 && members == t[1].response.members
    {
      members := [];
      if screening == Success {
        outcome, manager, t := ScreenedManagerID();
      } else {
        outcome, manager, t := ManagerID();
      }
      assert t[0] in t;
      if outcome != Done {
        return;
      }
      ghost var list;
      outcome, members, list := ListDevices(manager);
      assert list[0] in t + list;
      Joined(t, list);
      t := t + list;
    }

    /** EjectVirtualMedia leaves every device that its manager lists seen empty. */
    method EjectVirtualMedia() returns (outcome: Outcome, ghost manager: string, ghost t: Trace)
      modifies this
      ensures trace == old(trace) + t && Orderly(t, outcome)
      ensures |t| <= EjectBudget(Largest(t), retries)
      ensures Quiet(t) && EjectsInserted(t)
      ensures outcome == Done ==> AllEjected(t, manager)
      ensures outcome == Failed && AllPassable(t) ==> EjectStuck(t, manager, retries)
      ensures outcome == Crashed ==> EndsInCrash(t)
    {
      hide *;
      var id, members;
      outcome, id, members, t := LookUp(NoClientError);
      manager := id;
      SmallBound(t, retries);
      if outcome != Done {
        return;
      }
      ghost var head, turns: Trace := t, [];
      Units(head);
      NothingSent();
      for i := 0 to |members|
        invariant trace == old(trace) + (head + turns) && Orderly(head + turns, Done)
        invariant |turns| <= i * (EjectPolls(retries) + 2)
        invariant forall k :: 0 <= k < i ==> SeenEmpty(turns, id, members[k])
        invariant forall e :: e in turns ==> ReadsOrEjects(e, id, members)
        invariant EjectsInserted(turns)
      {
        ghost var more;
        outcome, more := EjectDevice(id, members[i]);
        t := Append(old(trace), head + turns, more, outcome);
        Assoc(head, turns, more);
        NextMultiple(i, EjectPolls(retries) + 2);
        DevicesBound(head, turns + more, members, i + 1, retries, id);
        TurnReads(more, id, members, i);
        EjectsJoined(turns, more);
        EjectsJoined(head, turns + more);
        ReadsQuiet(head, turns + more, id, members);
        if outcome != Done {
          TurnStuck(head, turns, more, id, members[i], retries);
          return;
        }
        EmptyNext(turns, more, id, members, i);
        turns := turns + more;
      }
      t := head + turns;
      DevicesBound(head, turns, members, |members|, retries, id);
      EjectsJoined(head, turns);
      ReadsQuiet(head, turns, id, members);
      EjectedAll(head, turns, id);
      outcome := Done;
    }

    /** The first CD or DVD type among the media types of a device. */
    method DiscType(types: seq<string>) returns (r: Option<string>)
      ensures r == FirstDisc(types)
    {
      for i := 0 to |types|
        invariant FirstDisc(types) == FirstDisc(types[i..])
      {
        if IsDisc(types[i]) {
          return Some(types[i]);
        }
      }
      return None;
    }

    /** The disc type that a device offers, if any. */
    method DiscOf(manager: string, media: string) returns (outcome: Outcome, disc: Option<string>, ghost t: Trace)
      modifies this
      ensures trace == old(trace) + t && Orderly(t, outcome) && |t| == 1 && Quiet(t) && EjectsInserted(t)
      ensures t[0].request == GetMedia(manager, media) && t[0].screening == Success
      ensures outcome == Failed <==> !Accepted(t[0].response)
      ensures outcome == Crashed <==> Accepted(t[0].response) && t[0].response.mediaTypes.None?
      ensures outcome == Done ==> ShowsDisc(t[0], manager, media, disc)
    {
      var device;
      device, t := Send(GetMedia(manager, media), Success);
      if !Accepted(device) {
        return Failed, None, t;
      }
      if device.mediaTypes.None? {
        return Crashed, None, t;
      }
      disc := DiscType(device.mediaTypes.value);
      return Done, disc, t;
    }

    /**
     * GetVirtualMediaID ends at the first listed device that offers a disc
     * type; without a failed answer it fails only if none of them does.
     */
    method GetVirtualMediaID()
      returns (outcome: Outcome, media: string, mediaType: string, ghost manager: string, ghost t: Trace)
      modifies this
      ensures trace == old(trace) + t && Orderly(t, outcome)
      ensures |t| <= SearchBudget(Largest(t))
      ensures Quiet(t) && EjectsInserted(t)
      ensures outcome == Done ==> FoundDisc(t, manager, media, mediaType)
      ensures outcome == Failed && AllPassable(t) ==> NoDisc(t, manager)
      ensures outcome == Crashed ==> EndsInCrash(t)
    {
      hide *;
      var id, members;
      media, mediaType := "", "";
      outcome, id, members, t := LookUp(Success);
      manager := id;
      SearchBound(t);
      if outcome != Done {
        return;
      }
      SearchBegins(t, id);
      for i := 0 to |members|
        invariant trace == old(trace) + t && Orderly(t, Done) && SearchedTo(t, id, members, i)
      {
        var disc;
        ghost var e, before := [], t;
        outcome, disc, e := DiscOf(id, members[i]);
        t := Append(old(trace), before, e, outcome);
        SearchGoesOn(before, e, id, members, i, outcome, disc);
        if outcome != Done {
          return;
        }
        if disc.Some? {
          return Done, members[i], disc.value, id, t;
        }
      }
      SearchEnds(t, id, members);
      StoppedEarly(t);
      return Failed, media, mediaType, id, t;
    }

    /** SetVirtualMedia inserts only after it has emptied the devices and found one. */
    method SetVirtualMedia(image: string) returns (outcome: Outcome, ghost t: Trace)
      modifies this
      ensures trace == old(trace) + t && Orderly(t, outcome)
      ensures |t| <= MediaBudget(Largest(t), retries)
      ensures MediaStep(t, image)
      ensures outcome == Done ==> MediaSet(t, image)
      ensures outcome == Failed && AllPassable(t) ==> MediaStuck(t, retries)
      ensures outcome == Crashed ==> EndsInCrash(t)
    {
      hide *;
      ghost var emptied, ejected, searched, found, rest;
      outcome, emptied, ejected := EjectVirtualMedia();
      t, found, rest := ejected, [], [];
      MediaBound(ejected, found, rest, retries);
      Units(ejected);
      QuietMedia(t, image);
      if outcome != Done {
        DeviceStuck(ejected, emptied, retries);
        return;
      }
      var media, mediaType, manager;
      outcome, media, mediaType, searched, found := GetVirtualMediaID();
      t := Append(old(trace), ejected, found, outcome);
      MediaBound(ejected, found, rest, retries);
      Units(t);
      QuietJoined(ejected, found);
      QuietMedia(t, image);
      if outcome != Done {
        NothingFound(ejected, found, emptied, searched, retries, outcome);
        return;
      }
      outcome, manager, rest := ManagerID();
      t := Append(old(trace), ejected + found, rest, outcome);
      MediaBound(ejected, found, rest, retries);
      SingleQuiet(rest);
      QuietJoined(ejected + found, rest);
      QuietMedia(t, image);
      if outcome != Done {
        LookupFails(ejected + found, rest);
        return;
      }
      ghost var at := rest;
      var inserted, put := Send(InsertMedia(manager, media, image), Success);
      outcome := if Accepted(inserted) then Done else Failed;
      SingleOrderly(put, outcome);
      MediaReady(ejected, found, at, emptied, searched, mediaType, manager, media);
      InsertStep(ejected + found + at, put, image, manager, media);
      t := Append(old(trace), ejected + found + at, put, outcome);
      SendFails(ejected + found + at, put);
      Assoc(ejected + found, at, put);
      rest := at + put;
      MediaBound(ejected, found, rest, retries);
    }

    /** The events of two calls in a row. */
    lemma Append(start: Trace, s: Trace, more: Trace, outcome: Outcome) returns (t: Trace)
      requires Orderly(s, Done) && Orderly(more, outcome) && trace == start + s + more
      ensures t == s + more && trace == start + t && Orderly(t, outcome)
    {
      t := s + more;
      Assoc(start, s, more);
      Joined(s, more);
    }

    /** SetBootSourceByType sets a target only after it has found a disc device that matches. */
    method SetBootSourceByType() returns (outcome: Outcome, ghost t: Trace)
      modifies this
      ensures trace == old(trace) + t && Orderly(t, outcome)
      ensures |t| <= BootBudget(Largest(t))
      ensures BootStep(t)
      ensures outcome == Done ==> BootSourceSet(t)
      ensures outcome == Failed && AllPassable(t) ==> BootStuck(t)
      ensures outcome == Crashed ==> EndsInCrash(t)
    {
      hide *;
      var media, mediaType, system;
      ghost var searched, found, read, put;
      outcome, media, mediaType, searched, found := GetVirtualMediaID();
      t := found;
      BootBound(found, []);
      Units(found);
      QuietBoot(t);
      if outcome != Done {
        DiscMissing(found, searched);
        return;
      }
      system, read := Send(GetSystem, NoClientError);
      SingleOrderly(read, if system.clientError then Failed else Done);
      t := Append(old(trace), found, read, if system.clientError then Failed else Done);
      BootBound(found, read);
      SingleQuiet(read);
      QuietJoined(found, read);
      QuietBoot(t);
      LookupFails(found, read);
      if system.clientError {
        return Failed, t;
      }
      for i := 0 to |system.bootTargets|
        invariant trace == old(trace) + t && t == found + read
        invariant forall j :: 0 <= j < i ==> !EqualFold(system.bootTargets[j], mediaType)
      {
        if EqualFold(system.bootTargets[i], mediaType) {
          MatchAt(system.bootTargets, mediaType, i);
          var done;
          done, put := Send(SetBoot(system.bootTargets[i]), Success);
          outcome := if Accepted(done) then Done else Failed;
          SingleOrderly(put, outcome);
          BootReady(found, read, system.bootTargets[i], searched, media, mediaType);
          SetBootStep(found + read, put, system.bootTargets[i]);
          SendFails(found + read, put);
          t := Append(old(trace), found + read, put, outcome);
          Assoc(found, read, put);
          BootBound(found, read + put);
          return;
        }
      }
      StoppedEarly(t);
      TargetMissing(found, read, searched, media, mediaType);
      return Failed, t;
    }

    /**
     * RemoteDirect succeeds only on a complete run, sends nothing after a
     * failed answer and no request without all that must come before it, and
     * sends no more requests than its bound.
     */
    method RemoteDirect(image: string) returns (outcome: Outcome, ghost t: Trace)
      modifies this
      ensures trace == old(trace) + t && Orderly(t, outcome)
      ensures |t| <= RunBudget(Largest(t), retries)
      ensures retries >= 0 ==> |t| <= 15 + 2 * retries + Largest(t) * (retries + 4)
      ensures AllJustified(t, image)
      ensures outcome == Done ==> Bootstrapped(t, image) && image != ""
      ensures outcome == Failed && AllPassable(t) ==>
                StuckBeforeImage(t, image, retries) || StuckAfterImage(t, image, retries)
      ensures outcome == Crashed ==> EndsInCrash(t)
    {
      hide *;
      var power;
      outcome, power, t := SystemPowerStatus();
      ghost var off, media, boot, on := t, [], [], [];
      RunBound(off, media, boot, on, retries);
      Units(off);
      OnlyRead(off, image);
      if outcome != Done {
        ReadFailed(off);
        return;
      }
      if power != Some(PowerOff) {
        ghost var switched;
        outcome, switched := SystemPowerOff();
        t := Append(old(trace), off, switched, outcome);
        RunBound(t, media, boot, on, retries);
        Units(t);
        OffStep(off, switched, image);
        if outcome != Done {
          OffStuck(off, switched, image, retries);
          return;
        }
        SwitchedOff(off, switched);
        off := t;
      } else {
        ReadOff(off);
      }
      if image == "" {
        StoppedEarly(t);
        ImageMissing(t, retries);
        return Failed, t;
      }
      outcome, media := SetVirtualMedia(image);
      t := Append(old(trace), off, media, outcome);
      RunBound(off, media, boot, on, retries);
      Units(t);
      MediaJustified(off, media, image);
      if outcome != Done {
        ImageStuck(off, media, image, retries, outcome);
        return;
      }
      outcome, boot := SetBootSourceByType();
      t := Append(old(trace), off + media, boot, outcome);
      RunBound(off, media, boot, on, retries);
      Units(t);
      BootsJustified(off, media, boot, image);
      if outcome != Done {
        BootFails(off, media, boot, image, retries, outcome);
        return;
      }
      outcome, on := SystemPowerOn();
      t := Append(old(trace), off + media + boot, on, outcome);
      RunBound(off, media, boot, on, retries);
      OnStep(off, media, boot, on, image);
      if outcome == Done {
        Assemble(off, media, boot, on, image);
      } else {
        OnFails(off, media, boot, on, image, retries);
      }
    }
  }

  // ----- What the parts of a run send -----

  /** Only reads, and ejects. */
  ghost predicate Quiet(t: Trace) {
    forall i :: 0 <= i < |t| ==>
      t[i].request.GetSystem? || t[i].request.ListMedia? || t[i].request.GetMedia? || t[i].request.EjectMedia?
  }

  /** Quiet, up to an insert at the end that comes after all it needs. */
  ghost predicate MediaStep(t: Trace, image: string) {
    && EjectsInserted(t)
    && (Quiet(t) ||
        (t != [] && Quiet(t[..|t| - 1]) && t[|t| - 1].request.InsertMedia? && t[|t| - 1].request.image == image
         && ReadyToInsert(t[..|t| - 1], t[|t| - 1].request.manager, t[|t| - 1].request.media)))
  }

  /** Quiet, up to a boot target at the end that comes after all it needs. */
  ghost predicate BootStep(t: Trace) {
    && EjectsInserted(t)
    && (Quiet(t) ||
        (t != [] && Quiet(t[..|t| - 1]) && t[|t| - 1].request.SetBoot?
         && ReadyToBoot(t[..|t| - 1], t[|t| - 1].request.target)))
  }

  lemma EjectsJoined(s: Trace, t: Trace)
    requires EjectsInserted(s) && EjectsInserted(t)
    ensures EjectsInserted(s + t)
  {
    forall i | 0 <= i < |s + t| && (s + t)[i].request.EjectMedia?
      ensures i > 0 && ShownInserted((s + t)[i - 1], (s + t)[i].request)
    {
      if |s| <= i {
        assert t[i - |s|].request.EjectMedia?;
      }
    }
  }

  /** A read, an eject, and the polls for it. */
  lemma EjectTurn(head: Trace, polls: Trace, manager: string, media: string, retries: int)
    requires |head| == 2 && head[0].request == GetMedia(manager, media) && Accepted(head[0].response)
    requires head[0].response.inserted && head[1].request == EjectMedia(manager, media)
    requires forall e :: e in polls ==> e.request == GetMedia(manager, media)
    ensures EjectsInserted(head + polls)
    ensures forall e :: e in head + polls ==>
              e.request == GetMedia(manager, media) || e.request == EjectMedia(manager, media)
    ensures EndsEmpty(polls, manager, media) ==> EndsEmpty(head + polls, manager, media)
    ensures AllPassable(head + polls) ==> AllPassable(polls)
    ensures |polls| == EjectPolls(retries) && (forall i :: 0 <= i < |polls| ==> polls[i].response.inserted) ==>
              StuckDevice(head + polls, manager, media, retries)
  {
    hide Accepted, Passable;
    var t := head + polls;
    if AllPassable(t) {
      PassableParts(head, polls);
    }
    forall i | 2 <= i < |t| ensures t[i].request == GetMedia(manager, media) {
      assert t[i] == polls[i - 2] && polls[i - 2] in polls;
    }
  }

  lemma TurnStuck(head: Trace, turns: Trace, more: Trace, manager: string, media: string, retries: int)
    requires |head| == 2 && ListsDevices(head, NoClientError, manager) && media in head[1].response.members
    requires AllPassable(more) ==> StuckDevice(more, manager, media, retries)
    ensures AllPassable(head + turns + more) ==> EjectStuck(head + turns + more, manager, retries)
  {
    hide StuckDevice, Passable, Accepted;
    var t := head + turns + more;
    if AllPassable(t) {
      PassableParts(head + turns, more);
      assert t[|head + turns|..] == more && t[0] == head[0] && t[1] == head[1];
    }
  }

  lemma DeviceStuck(t: Trace, manager: string, retries: int)
    ensures EjectStuck(t, manager, retries) ==> MediaStuck(t, retries)
  {
  }

  lemma NothingFound(
    ejected: Trace, found: Trace, emptied: string, searched: string, retries: int, outcome: Outcome)
    requires AllEjected(ejected, emptied)
    requires outcome == Failed && AllPassable(found) ==> NoDisc(found, searched)
    requires outcome == Crashed ==> EndsInCrash(found)
    ensures outcome == Failed && AllPassable(ejected + found) ==> MediaStuck(ejected + found, retries)
    ensures outcome == Crashed ==> EndsInCrash(ejected + found)
  {
    hide AllEjected, NoDisc, Passable, EjectStuck;
    var t := ejected + found;
    assert t[..|ejected|] == ejected && t[|ejected|..] == found;
    if AllPassable(t) {
      PassableParts(ejected, found);
    }
  }

  /** A read of the system whose answer has a client error or no manager, at the end of a call. */
  lemma LookupFails(before: Trace, read: Trace)
    requires |read| == 1 && read[0].request == GetSystem && read[0].screening == NoClientError
    ensures read[0].response.clientError ==> !AllPassable(before + read)
    ensures read[0].response.manager.None? ==> EndsInCrash(before + read)
  {
    assert (before + read)[|before|] == read[0] && read[0] in before + read;
  }

  /** A request whose answer is no success, at the end of a call. */
  lemma SendFails(before: Trace, put: Trace)
    requires |put| == 1 && put[0].screening == Success
    ensures !Accepted(put[0].response) ==> !AllPassable(before + put)
  {
    assert (before + put)[|before|] == put[0] && put[0] in before + put;
  }

  lemma DiscMissing(t: Trace, manager: string)
    ensures NoDisc(t, manager) ==> BootStuck(t)
  {
  }

  lemma MatchAt(targets: seq<string>, mediaType: string, i: nat)
    requires i < |targets| && EqualFold(targets[i], mediaType)
    requires forall j :: 0 <= j < i ==> !EqualFold(targets[j], mediaType)
    ensures FirstMatch(targets, mediaType, targets[i])
  {
  }

  lemma TargetMissing(found: Trace, read: Trace, manager: string, media: string, mediaType: string)
    requires FoundDisc(found, manager, media, mediaType)
    requires |read| == 1 && read[0].request == GetSystem && read[0].screening == NoClientError
    requires
      var targets := read[0].response.bootTargets;
      forall j :: 0 <= j < |targets| ==> !EqualFold(targets[j], mediaType)
    ensures BootStuck(found + read)
  {
    hide FoundDisc, EqualFold;
    var t := found + read;
    assert t[..|t| - 1] == found && t[|t| - 1] == read[0];
    assert NoTarget(t, manager, media, mediaType);
  }

  // ----- Where a whole run gets stuck -----

  lemma ReadFailed(t: Trace)
    requires |t| == 1 && ScreenedRead(t[0]) && !Accepted(t[0].response)
    ensures !AllPassable(t)
  {
    assert t[0] in t;
  }

  lemma OffStuck(read: Trace, t: Trace, image: string, retries: int)
    requires |read| == 1 && (AllPassable(t) ==> SwitchTimedOut(t, ForceOff, PowerOff, retries))
    ensures AllPassable(read + t) ==> StuckBeforeImage(read + t, image, retries)
  {
    hide SwitchTimedOut, Passable;
    assert (read + t)[1..] == t;
    if AllPassable(read + t) {
      PassableParts(read, t);
    }
  }

  lemma ImageMissing(t: Trace, retries: int)
    requires HostOff(t)
    ensures StuckBeforeImage(t, "", retries)
  {
  }

  lemma ImageStuck(off: Trace, t: Trace, image: string, retries: int, outcome: Outcome)
    requires HostOff(off) && (outcome == Failed && AllPassable(t) ==> MediaStuck(t, retries))
    requires outcome == Crashed ==> EndsInCrash(t)
    ensures outcome == Failed && AllPassable(off + t) ==> StuckBeforeImage(off + t, image, retries)
    ensures outcome == Crashed ==> EndsInCrash(off + t)
  {
    hide HostOff, MediaStuck, Passable, SwitchTimedOut;
    var all := off + t;
    assert all[..|off|] == off && all[|off|..] == t;
    if AllPassable(all) {
      PassableParts(off, t);
    }
  }

  /** What gets stuck once the image is in. */
  lemma AfterImage(off: Trace, media: Trace, t: Trace, image: string, retries: int)
    requires HostOff(off) && MediaSet(media, image) && BootOrOnStuck(t, retries)
    ensures StuckAfterImage(off + media + t, image, retries)
  {
    hide HostOff, MediaSet, BootOrOnStuck;
    var all, a, b := off + media + t, |off|, |off + media|;
    assert all[..a] == off && all[a..b] == media && all[b..] == t;
  }

  lemma BootFails(off: Trace, media: Trace, t: Trace, image: string, retries: int, outcome: Outcome)
    requires HostOff(off) && MediaSet(media, image) && (outcome == Failed && AllPassable(t) ==> BootStuck(t))
    requires outcome == Crashed ==> EndsInCrash(t)
    ensures outcome == Failed && AllPassable(off + media + t) ==> StuckAfterImage(off + media + t, image, retries)
    ensures outcome == Crashed ==> EndsInCrash(off + media + t)
  {
    hide HostOff, MediaSet, BootStuck, Passable, StuckAfterImage;
    if AllPassable(off + media + t) {
      PassableParts(off + media, t);
      if outcome == Failed {
        AfterImage(off, media, t, image, retries);
      }
    }
  }

  lemma OnFails(off: Trace, media: Trace, boot: Trace, t: Trace, image: string, retries: int)
    requires HostOff(off) && MediaSet(media, image) && BootSourceSet(boot)
    requires AllPassable(t) ==> SwitchTimedOut(t, SwitchOn, PowerOn, retries)
    ensures AllPassable(off + media + boot + t) ==> StuckAfterImage(off + media + boot + t, image, retries)
  {
    hide HostOff, MediaSet, BootSourceSet, SwitchTimedOut, Passable, StuckAfterImage, BootStuck;
    var all := off + media + boot + t;
    if AllPassable(all) {
      PassableParts(off + media + boot, t);
      assert (boot + t)[..|boot|] == boot && (boot + t)[|boot|..] == t;
      Assoc(off + media, boot, t);
      AfterImage(off, media, boot + t, image, retries);
    }
  }

  // ----- The search for a disc device -----

  /** The first i devices of the list offer no disc type. */
  ghost predicate SearchedTo(t: Trace, manager: string, members: seq<string>, i: nat) {
    && Quiet(t) && EjectsInserted(t) && i <= |members| && |t| == 2 + i
    && ListsDevices(t, Success, manager) && t[1].response.members == members
    && forall k :: 2 <= k < |t| ==> ShowsDisc(t[k], manager, members[k - 2], None)
  }

  lemma SearchBegins(t: Trace, manager: string)
    requires |t| == 2 && Quiet(t) && EjectsInserted(t) && ListsDevices(t, Success, manager)
    ensures SearchedTo(t, manager, t[1].response.members, 0)
  {
  }

  lemma SearchGoesOn(
    t: Trace, e: Trace, manager: string, members: seq<string>, i: nat, outcome: Outcome, disc: Option<string>)
    requires SearchedTo(t, manager, members, i) && i < |members|
    requires |e| == 1 && Quiet(e) && EjectsInserted(e)
    requires e[0].request == GetMedia(manager, members[i]) && e[0].screening == Success
    requires outcome == Failed <==> !Accepted(e[0].response)
    requires outcome == Crashed <==> Accepted(e[0].response) && e[0].response.mediaTypes.None?
    requires outcome == Done ==> ShowsDisc(e[0], manager, members[i], disc)
    ensures |t + e| <= SearchBudget(Largest(t + e)) && Quiet(t + e) && EjectsInserted(t + e)
    ensures outcome == Failed ==> !AllPassable(t + e)
    ensures outcome == Crashed ==> EndsInCrash(t + e)
    ensures outcome == Done && disc.None? ==> SearchedTo(t + e, manager, members, i + 1)
    ensures outcome == Done && disc.Some? ==> FoundDisc(t + e, manager, members[i], disc.value)
  {
    hide Quiet, EjectsInserted, FirstDisc, Largest, ShowsDisc, Accepted, NamesManager;
    var all := t + e;
    QuietJoined(t, e);
    SendFails(t, e);
    LargestBounds(all, 1);
    assert all[|all| - 1] == e[0] && forall k :: 0 <= k < |t| ==> all[k] == t[k];
  }

  lemma SearchEnds(t: Trace, manager: string, members: seq<string>)
    requires SearchedTo(t, manager, members, |members|)
    ensures |t| <= SearchBudget(Largest(t)) && Quiet(t) && EjectsInserted(t) && NoDisc(t, manager)
  {
    hide Quiet, EjectsInserted, Largest, ShowsDisc;
    LargestBounds(t, 1);
  }

  lemma QuietJoined(s: Trace, t: Trace)
    requires Quiet(s) && Quiet(t) && EjectsInserted(s) && EjectsInserted(t)
    ensures Quiet(s + t) && EjectsInserted(s + t)
  {
    EjectsJoined(s, t);
  }

  lemma SingleQuiet(t: Trace)
    requires |t| == 1 && (t[0].request.GetSystem? || t[0].request.GetMedia?)
    ensures Quiet(t) && EjectsInserted(t)
  {
  }

  lemma QuietMedia(t: Trace, image: string)
    requires Quiet(t) && EjectsInserted(t)
    ensures MediaStep(t, image)
  {
  }

  lemma QuietBoot(t: Trace)
    requires Quiet(t) && EjectsInserted(t)
    ensures BootStep(t)
  {
  }

  lemma TurnReads(more: Trace, manager: string, members: seq<string>, i: nat)
    requires i < |members|
    requires forall e :: e in more ==>
               e.request == GetMedia(manager, members[i]) || e.request == EjectMedia(manager, members[i])
    ensures forall e :: e in more ==> ReadsOrEjects(e, manager, members)
  {
  }

  lemma ReadsQuiet(head: Trace, turns: Trace, manager: string, members: seq<string>)
    requires Quiet(head) && forall e :: e in turns ==> ReadsOrEjects(e, manager, members)
    ensures Quiet(head + turns)
  {
    forall i | 0 <= i < |turns| ensures ReadsOrEjects(turns[i], manager, members) {
      assert turns[i] in turns;
    }
  }

  lemma SearchBound(t: Trace)
    requires |t| <= 2
    ensures |t| <= SearchBudget(Largest(t))
  {
  }

  lemma MediaReady(
    ejected: Trace, found: Trace, at: Trace, emptied: string, searched: string, mediaType: string,
    manager: string, media: string)
    requires AllEjected(ejected, emptied) && FoundDisc(found, searched, media, mediaType)
    requires |at| == 1 && NamesManager(at[0], NoClientError, manager)
    ensures ReadyToInsert(ejected + found + at, manager, media)
  {
    hide AllEjected, FoundDisc, NamesManager;
    var t := ejected + found + at;
    assert t[..|ejected|] == ejected && t[|ejected|..|t| - 1] == found && t[|t| - 1] == at[0];
    assert ReadyAt(t, |ejected|, emptied, searched, mediaType, manager, media);
  }

  lemma InsertStep(before: Trace, put: Trace, image: string, manager: string, media: string)
    requires Quiet(before) && EjectsInserted(before) && ReadyToInsert(before, manager, media)
    requires |put| == 1 && put[0].request == InsertMedia(manager, media, image)
    ensures MediaStep(before + put, image)
    ensures Accepted(put[0].response) ==> MediaSet(before + put, image)
  {
    hide ReadyToInsert, Quiet;
    var t := before + put;
    assert t[..|t| - 1] == before && t[|t| - 1] == put[0];
    EjectsJoined(before, put);
  }

  lemma BootReady(found: Trace, read: Trace, target: string, searched: string, media: string, mediaType: string)
    requires FoundDisc(found, searched, media, mediaType) && |read| == 1
    requires read[0].request == GetSystem && read[0].screening == NoClientError && !read[0].response.clientError
    requires FirstMatch(read[0].response.bootTargets, mediaType, target)
    ensures ReadyToBoot(found + read, target)
  {
    hide FoundDisc, FirstMatch;
    var t := found + read;
    assert t[..|t| - 1] == found && t[|t| - 1] == read[0];
    assert ReadyToBootFrom(t, target, searched, media, mediaType);
  }

  lemma SetBootStep(before: Trace, put: Trace, target: string)
    requires Quiet(before) && EjectsInserted(before) && ReadyToBoot(before, target)
    requires |put| == 1 && put[0].request == SetBoot(target)
    ensures BootStep(before + put)
    ensures Accepted(put[0].response) ==> BootSourceSet(before + put)
  {
    hide ReadyToBoot, Quiet;
    var t := before + put;
    assert t[..|t| - 1] == before && t[|t| - 1] == put[0];
    EjectsJoined(before, put);
  }

  // ----- Every request is justified by what came before -----

  lemma OnlyRead(t: Trace, image: string)
    requires |t| == 1 && t[0].request == GetSystem
    ensures AllJustified(t, image)
  {
    assert t[..0] == [];
  }

  /** A part whose requests are justified after the parts before it. */
  lemma {:induction false} JustifiedJoin(s: Trace, t: Trace, image: string)
    requires AllJustified(s, image)
    requires forall i :: 0 <= i < |t| ==> Justified(s + t[..i], image, t[i].request)
    ensures AllJustified(s + t, image)
  {
    hide Justified;
    var all := s + t;
    forall i | 0 <= i < |all| ensures Justified(all[..i], image, all[i].request) {
      if i < |s| {
        assert all[..i] == s[..i];
      } else {
        assert all[..i] == s + t[..i - |s|] && all[i] == t[i - |s|];
      }
    }
  }

  lemma {:induction false} OffStep(read: Trace, t: Trace, image: string)
    requires AllJustified(read, image) && |read| == 1 && ScreenedRead(read[0]) && Accepted(read[0].response)
    requires read[0].response.power != Some(PowerOff)
    requires t != [] && t[0].request == Reset(ForceOff) && forall e :: e in t[1..] ==> ScreenedRead(e)
    ensures AllJustified(read + t, image)
  {
    hide AllJustified;
    forall i | 0 <= i < |t| ensures Justified(read + t[..i], image, t[i].request) {
      if i == 0 {
        assert read + t[..0] == read;
      } else {
        assert t[i] == t[1..][i - 1] && t[i] in t[1..];
      }
    }
    JustifiedJoin(read, t, image);
  }

  /** Reads need nothing before them, and ejects only the read before. */
  lemma {:induction false} QuietJustified(s: Trace, t: Trace, image: string, i: nat)
    requires EjectsInserted(t) && i < |t|
    requires t[i].request.GetSystem? || t[i].request.ListMedia? || t[i].request.GetMedia? || t[i].request.EjectMedia?
    ensures Justified(s + t[..i], image, t[i].request)
  {
    if t[i].request.EjectMedia? {
      var before := s + t[..i];
      assert before[|before| - 1] == t[i - 1];
    }
  }

  lemma {:induction false} MediaJustified(off: Trace, t: Trace, image: string)
    requires AllJustified(off, image) && HostOff(off) && MediaStep(t, image)
    ensures AllJustified(off + t, image)
  {
    hide AllJustified, HostOff, ReadyToInsert, EjectsInserted;
    forall i | 0 <= i < |t| ensures Justified(off + t[..i], image, t[i].request) {
      assert i < |t| - 1 ==> t[..|t| - 1][i] == t[i];
      if t[i].request.InsertMedia? {
        var before := off + t[..i];
        assert before[..|off|] == off && before[|off|..] == t[..|t| - 1];
      } else {
        QuietJustified(off, t, image, i);
      }
    }
    JustifiedJoin(off, t, image);
  }

  lemma {:induction false} BootsJustified(off: Trace, media: Trace, t: Trace, image: string)
    requires AllJustified(off + media, image) && HostOff(off) && MediaSet(media, image) && BootStep(t)
    ensures AllJustified(off + media + t, image)
  {
    hide AllJustified, HostOff, MediaSet, ReadyToBoot, EjectsInserted;
    forall i | 0 <= i < |t| ensures Justified(off + media + t[..i], image, t[i].request) {
      assert i < |t| - 1 ==> t[..|t| - 1][i] == t[i];
      if t[i].request.SetBoot? {
        var before := off + media + t[..i];
        var a, b := |off|, |off + media|;
        assert before[..a] == off && before[a..b] == media && before[b..] == t[..|t| - 1];
      } else {
        QuietJustified(off + media, t, image, i);
      }
    }
    JustifiedJoin(off + media, t, image);
  }

  lemma {:induction false} OnStep(off: Trace, media: Trace, boot: Trace, t: Trace, image: string)
    requires AllJustified(off + media + boot, image)
    requires HostOff(off) && MediaSet(media, image) && BootSourceSet(boot)
    requires t != [] && t[0].request == Reset(SwitchOn) && forall e :: e in t[1..] ==> ScreenedRead(e)
    ensures AllJustified(off + media + boot + t, image)
  {
    hide AllJustified, HostOff, MediaSet, BootSourceSet;
    var before := off + media + boot;
    forall i | 0 <= i < |t| ensures Justified(before + t[..i], image, t[i].request) {
      if i == 0 {
        var a, b := |off|, |off + media|;
        assert before + t[..0] == before;
        assert before[..a] == off && before[a..b] == media && before[b..] == boot;
      } else {
        assert t[i] == t[1..][i - 1] && t[i] in t[1..];
      }
    }
    JustifiedJoin(before, t, image);
  }

  // ----- Small facts about traces -----

  lemma Units(t: Trace)
    ensures t + [] == t
  {
  }

  lemma Assoc(a: Trace, b: Trace, c: Trace)
    ensures a + b + c == a + (b + c)
  {
  }

  lemma SingleOrderly(t: Trace, outcome: Outcome)
    requires |t| == 1 && (outcome == Done ==> Passable(t[0]))
    ensures Orderly(t, outcome)
  {
  }

  lemma StoppedEarly(t: Trace)
    requires Orderly(t, Done)
    ensures Orderly(t, Failed)
  {
  }

  lemma BootBound(found: Trace, rest: Trace)
    requires |found| <= SearchBudget(Largest(found)) && |rest| <= 2
    ensures |found + rest| <= BootBudget(Largest(found + rest))
  {
    LargestParts(found, rest);
  }

  lemma SmallBound(t: Trace, retries: int)
    requires |t| <= 2
    ensures |t| <= EjectBudget(Largest(t), retries)
  {
  }

  lemma NextMultiple(i: nat, c: nat)
    ensures (i + 1) * c == i * c + c
  {
  }

  lemma MediaBound(ejected: Trace, found: Trace, rest: Trace, retries: int)
    requires |ejected| <= EjectBudget(Largest(ejected), retries)
    requires found == [] || |found| <= SearchBudget(Largest(found))
    requires |rest| <= 2
    ensures |ejected + found + rest| <= MediaBudget(Largest(ejected + found + rest), retries)
  {
    LargestParts(ejected, found);
    LargestParts(ejected + found, rest);
    BudgetsGrow(Largest(ejected), Largest(ejected + found + rest), retries);
  }

  lemma RunBound(off: Trace, media: Trace, boot: Trace, on: Trace, retries: int)
    requires |off| <= 1 + SwitchBudget(retries) && |on| <= SwitchBudget(retries)
    requires media == [] || |media| <= MediaBudget(Largest(media), retries)
    requires boot == [] || |boot| <= BootBudget(Largest(boot))
    ensures
      var t := off + media + boot + on;
      && |t| <= RunBudget(Largest(t), retries)
      && (retries >= 0 ==> |t| <= 15 + 2 * retries + Largest(t) * (retries + 4))
  {
    var t := off + media + boot + on;
    LargestParts(off, media);
    LargestParts(off + media, boot);
    LargestParts(off + media + boot, on);
    BudgetsGrow(Largest(media), Largest(t), retries);
    if retries >= 0 {
      RunBudgetFormula(Largest(t), retries);
    }
  }

  lemma Assemble(off: Trace, media: Trace, boot: Trace, on: Trace, image: string)
    requires HostOff(off) && MediaSet(media, image) && BootSourceSet(boot) && Switched(on, SwitchOn, PowerOn)
    ensures Bootstrapped(off + media + boot + on, image)
  {
    hide HostOff, MediaSet, BootSourceSet, Switched;
    var t := off + media + boot + on;
    var a, b := |off|, |off| + |media|;
    var c := b + |boot|;
    assert t[..a] == off && t[a..b] == media && t[b..c] == boot && t[c..] == on;
    assert BootstrappedAt(t, image, a, b, c);
  }

  lemma ReadOff(t: Trace)
    requires |t| == 1 && Observes(t[0], PowerOff)
    ensures HostOff(t)
  {
  }

  lemma SwitchedOff(read: Trace, t: Trace)
    requires |read| == 1 && ScreenedRead(read[0]) && Accepted(read[0].response)
    requires t != [] && t[0].request == Reset(ForceOff)
    requires Switched(t, ForceOff, PowerOff) || (|t| == 1 && Conflict(t[0].response))
    ensures HostOff(read + t)
  {
    assert (read + t)[1..] == t;
  }

  lemma OnAfterOff(off: Trace, on: Trace)
    requires Switched(off, ForceOff, PowerOff)
    requires on != [] && forall e :: e in on[1..] ==> ScreenedRead(e)
    ensures OnOnlyAfterOff(off + on)
  {
    TailReads(off);
    TailReads(on);
    assert off[1..][|off| - 2] == off[|off| - 1];
  }

  lemma TailReads(t: Trace)
    requires t != [] && forall e :: e in t[1..] ==> ScreenedRead(e)
    ensures forall i :: 1 <= i < |t| ==> ScreenedRead(t[i])
  {
    forall i | 1 <= i < |t| ensures ScreenedRead(t[i]) {
      assert t[i] == t[1..][i - 1];
    }
  }

  lemma OffOnly(t: Trace)
    requires t != [] && t[0].request == Reset(ForceOff) && forall e :: e in t[1..] ==> ScreenedRead(e)
    ensures OnOnlyAfterOff(t)
  {
    TailReads(t);
  }

  lemma NothingSent()
    ensures EjectsInserted([])
  {
  }

  ghost predicate EndsEmpty(t: Trace, manager: string, media: string) {
    t != [] &&
    var last := t[|t| - 1];
    last.request == GetMedia(manager, media) && Accepted(last.response) && !last.response.inserted
  }

  lemma DevicesBound(head: Trace, turns: Trace, members: seq<string>, i: nat, retries: int, manager: string)
    requires |head| == 2 && head[1].response.members == members && i <= |members|
    requires |turns| <= i * (EjectPolls(retries) + 2)
    ensures |head + turns| <= EjectBudget(Largest(head + turns), retries)
  {
    LargestBounds(head + turns, 1);
    MulMonotone(i, Largest(head + turns), EjectPolls(retries) + 2);
  }

  /** One more device is seen empty, and those before still are. */
  lemma EmptyNext(turns: Trace, more: Trace, manager: string, members: seq<string>, i: nat)
    requires i < |members| && forall k :: 0 <= k < i ==> SeenEmpty(turns, manager, members[k])
    requires EndsEmpty(more, manager, members[i])
    requires forall e :: e in more ==>
               e.request == GetMedia(manager, members[i]) || e.request == EjectMedia(manager, members[i])
    ensures forall k :: 0 <= k < i + 1 ==> SeenEmpty(turns + more, manager, members[k])
  {
    assert EmptyAt(turns + more, |turns + more| - 1, manager, members[i]);
    forall k | 0 <= k < i + 1 ensures SeenEmpty(turns + more, manager, members[k]) {
      if members[k] != members[i] {
        SeenEmptyLater(turns, more, manager, members[k]);
      }
    }
  }

  lemma EjectedAll(head: Trace, turns: Trace, manager: string)
    requires |head| == 2 && ListsDevices(head, NoClientError, manager)
    requires forall k :: 0 <= k < |head[1].response.members| ==> SeenEmpty(turns, manager, head[1].response.members[k])
    requires forall e :: e in turns ==> ReadsOrEjects(e, manager, head[1].response.members)
    ensures AllEjected(head + turns, manager)
  {
    var t := head + turns;
    assert t[2..] == turns;
    forall m | m in t[1].response.members ensures SeenEmpty(t, manager, m) {
      var i :| 0 <= i < |turns| && EmptyAt(turns, i, manager, m);
      forall j | i + 2 < j < |t| ensures !About(t[j], manager, m) {
        assert t[j] == turns[j - 2];
      }
      assert EmptyAt(t, i + 2, manager, m);
    }
  }
}
