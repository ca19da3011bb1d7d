/** The interview as the code runs it: a node record updated in place by a machine that posts events
    to itself, and a version cache searched by loops. */
module VersionProbeFsm {
  import opened VersionProbe

  class Fsm {
    var state: State
    var idx: nat
    var requested: int
    var waiting: Waiting
    var log: seq<Did>
    var cache: seq<Pair>
    var deleted: bool
    var supported: set<int>
    var flags: Flags
    var caps: nat
    var zws: bool

    ghost function Snapshot(): Probe
      reads this
    {
      Probe(state, idx, requested, waiting, log, cache, deleted, supported, flags, caps, zws)
    }

    // A node record that has not been interviewed yet.
    constructor (versions: seq<Pair>, isDeleted: bool, classes: set<int>)
      ensures Fresh(Snapshot()) && cache == versions && deleted == isDeleted && supported == classes
    {
      state, idx, requested, waiting, log := Idle, 0, 0, Nothing, [];
      cache, deleted, supported := versions, isDeleted, classes;
      flags, caps, zws := NeverStarted, 0, false;
    }

    method VersionGet(cls: int) returns (version: int)
      ensures version == Version(Snapshot(), cls)
    {
      if deleted { return 0; }
      var i := 0;
      while i < |cache|
        invariant i <= |cache|
        invariant CacheGet(cache, cls) == CacheGet(cache[i..], cls)
      {
        if cache[i].cls == cls { return cache[i].version; }
        assert cache[i..][1..] == cache[i + 1..];
        i := i + 1;
      }
      return 0;
    }

    method VersionSet(cls: int, version: int)
      modifies `cache
      ensures Snapshot() == WithVersion(old(Snapshot()), cls, version)
    {
      if deleted { return; }
      var i := 0;
      while i < |cache|
        invariant i <= |cache| && cache == old(cache)
        invariant forall k :: 0 <= k < i ==> cache[k].cls != cls
      {
        if cache[i].cls == cls {
          SetWritesFirst(cache, i, cls, version);
          cache := cache[i := Pair(cls, version)];
          return;
        }
        i := i + 1;
      }
      SetWritesFirst(cache, i, cls, version);
    }

    // The sender took the request, or refused it.
    method SendRequest(w: Waiting, did: Did, accept: bool)
      modifies `waiting, `log, `flags
      ensures Snapshot() == Ask(old(Snapshot()), w, did, accept).0
    {
      if accept {
        waiting, log := w, log + [did];
      } else {
        flags, log := Failed, log + [Refused];
      }
    }

    method PostEvent(ev: Ev, accept: bool)
      requires InRange(Snapshot()) && waiting == Nothing
      modifies this
      ensures Snapshot() == Post(old(Snapshot()), ev, accept)
      decreases Rank(Snapshot()), 1
    {
      match state {
        case Idle => PostIdle(ev, accept);
        case SendCcGet => PostSendCcGet(ev, accept);
        case LastReport => PostLastReport(ev, accept);
        case CheckIfV3 => PostCheckIfV3(ev, accept);
        case SendCapGet => PostSendCapGet(ev, accept);
        case SendZwsGet => PostSendZwsGet(ev, accept);
        case ProbeDone => PostProbeDone(ev, accept);
      }
    }

    method PostIdle(ev: Ev, accept: bool)
      requires state == Idle && waiting == Nothing
      modifies this
      ensures Snapshot() == Post(old(Snapshot()), ev, accept)
      decreases Rank(Snapshot()), 0
    {
      ghost var was := Snapshot();
      if ev == Initial {
        idx, state := 0, SendCcGet;
        PostCarriesOn(was, ev, accept, Snapshot(), Start);
        PostEvent(Start, accept);
      }
    }

    method PostSendCcGet(ev: Ev, accept: bool)
      requires state == SendCcGet && waiting == Nothing && idx < LAST
      modifies this
      ensures Snapshot() == Post(old(Snapshot()), ev, accept)
      decreases Rank(Snapshot()), 0
    {
      ghost var was := Snapshot();
      if ev == Start || ev == NotLast {
        if CONTROLLED[idx] in supported {
          var version := VersionGet(CONTROLLED[idx]);
          if version == 0 {
            requested := CONTROLLED[idx];
            SendRequest(ForVersion, Asked(CONTROLLED[idx]), accept);
          } else {
            idx, state := idx + 1, LastReport;
            PostCarriesOn(was, ev, accept, Snapshot(), CcProbed);
            PostEvent(CcProbed, accept);
          }
        } else {
          idx, state := idx + 1, LastReport;
          PostCarriesOn(was, ev, accept, Snapshot(), CcNotSupport);
          PostEvent(CcNotSupport, accept);
        }
      }
    }

    method PostLastReport(ev: Ev, accept: bool)
      requires state == LastReport && waiting == Nothing && idx <= LAST
      modifies this
      ensures Snapshot() == Post(old(Snapshot()), ev, accept)
      decreases Rank(Snapshot()), 0
    {
      ghost var was := Snapshot();
      if ev == CcReportRecv || ev == CcProbed || ev == CcNotSupport || ev == CcCallbackFail {
        if CONTROLLED[idx] != SENTINEL {
          state := SendCcGet;
          PostCarriesOn(was, ev, accept, Snapshot(), NotLast);
          PostEvent(NotLast, accept);
        } else {
          state := CheckIfV3;
          PostCarriesOn(was, ev, accept, Snapshot(), CcDone);
          PostEvent(CcDone, accept);
        }
      }
    }

    method PostCheckIfV3(ev: Ev, accept: bool)
      requires state == CheckIfV3 && waiting == Nothing
      modifies this
      ensures Snapshot() == Post(old(Snapshot()), ev, accept)
      decreases Rank(Snapshot()), 0
    {
      ghost var was := Snapshot();
      if ev == CcDone {
        var version := VersionGet(CLASS_VERSION);
        if version == VERSION_V3 {
          state := SendCapGet;
          PostCarriesOn(was, ev, accept, Snapshot(), IsV3);
          PostEvent(IsV3, accept);
        } else {
          state := ProbeDone;
          PostCarriesOn(was, ev, accept, Snapshot(), NotV3);
          PostEvent(NotV3, accept);
        }
      }
    }

    method PostSendCapGet(ev: Ev, accept: bool)
      requires state == SendCapGet && waiting == Nothing
      modifies this
      ensures Snapshot() == Post(old(Snapshot()), ev, accept)
      decreases Rank(Snapshot()), 0
    {
      ghost var was := Snapshot();
      if ev == IsV3 {
        if caps == 0 {
          SendRequest(ForCap, AskedCap, accept);
        } else {
          state := SendZwsGet;
          PostCarriesOn(was, ev, accept, Snapshot(), CapProbed);
          PostEvent(CapProbed, accept);
        }
      }
    }

    method PostSendZwsGet(ev: Ev, accept: bool)
      requires state == SendZwsGet && waiting == Nothing
      modifies this
      ensures Snapshot() == Post(old(Snapshot()), ev, accept)
      decreases Rank(Snapshot()), 0
    {
      ghost var was := Snapshot();
      if ev == CapReportRecv || ev == CapProbed {
        if HasZws(caps) {
          if !zws {
            SendRequest(ForZws, AskedZws, accept);
          } else {
            state := ProbeDone;
            PostCarriesOn(was, ev, accept, Snapshot(), ZwsProbed);
            PostEvent(ZwsProbed, accept);
          }
        } else {
          state := ProbeDone;
          PostCarriesOn(was, ev, accept, Snapshot(), ZwsNotSupport);
          PostEvent(ZwsNotSupport, accept);
        }
      }
    }

    method PostProbeDone(ev: Ev, accept: bool)
      requires state == ProbeDone && waiting == Nothing
      modifies this
      ensures Snapshot() == Post(old(Snapshot()), ev, accept)
      decreases Rank(Snapshot()), 0
    {
      if ev == ZwsNotSupport || ev == ZwsReportRecv || ev == NotV3 || ev == ZwsCallbackFail
         || ev == CapCallbackFail || ev == ZwsProbed {
        if flags == Failed {
          log := log + [Called(1)];
        } else {
          flags, log := Completed, log + [Called(0)];
        }
      }
    }

    method ProbeCcVersion(isGateway: bool, accept: bool)
      requires waiting == Nothing
      modifies this
      ensures Snapshot() == Begin(old(Snapshot()), isGateway, accept)
    {
      if isGateway {
        log := log + [Called(0)];
      } else {
        flags, state := Started, Idle;
        PostEvent(Initial, accept);
      }
    }

    method CcVersionCallback(t: Turn)
      requires waiting == ForVersion && idx < LAST
      modifies this
      ensures Snapshot() == OnVersion(old(Snapshot()), t)
    {
      var good := NoteVersion(t);
      PostEvent(if good then CcReportRecv else CcCallbackFail, t.accept);
    }

    // The part of the callback before it posts: store the version or mark the failure, move on.
    method NoteVersion(t: Turn) returns (good: bool)
      requires waiting == ForVersion && idx < LAST
      modifies this
      ensures good == GoodVersion(old(Snapshot()), t)
      ensures Snapshot() == VersionNoted(old(Snapshot()), t)
    {
      good := false;
      waiting := Nothing;
      if t.ok {
        if t.cls == requested {
          if t.version >= 1 {
            VersionSet(requested, t.version);
            good := true;
          } else {
            flags := Failed;
          }
        } else {
          flags := Failed;
        }
      } else {
        flags := Failed;
      }
      idx, state := idx + 1, LastReport;
    }

    method VersionCapabilitiesCallback(t: Turn)
      requires waiting == ForCap
      modifies this
      ensures Snapshot() == OnCap(old(Snapshot()), t)
    {
      waiting := Nothing;
      if t.ok {
        caps, state := t.caps, SendZwsGet;
        PostEvent(CapReportRecv, t.accept);
      } else {
        flags, state := Failed, ProbeDone;
        PostEvent(CapCallbackFail, t.accept);
      }
    }

    method VersionZwaveSoftwareCallback(t: Turn)
      requires waiting == ForZws
      modifies this
      ensures Snapshot() == OnZws(old(Snapshot()), t)
    {
      waiting, state := Nothing, ProbeDone;
      if t.ok {
        zws := true;
        PostEvent(ZwsReportRecv, t.accept);
      } else {
        PostEvent(ZwsCallbackFail, t.accept);
      }
    }
  }
}
