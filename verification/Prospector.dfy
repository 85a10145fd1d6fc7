/**
 The prospector (lc-lib/prospector): follows files through renames and rotation by their identity,
 and tells the registrar under which name each stream is found.

 The objects are those of the program, updated in place. A file that cannot be examined is outside this
 model, and so are two paths of one scan that lead to the same file.
 */
module Prospector {
  import opened Sequences
  import R = Registrar

  type Path = string
  /** What a file keeps under any name: on Unix, its device and inode. */
  type Identity = nat

  datatype FileInfo = FileInfo(identity: Identity, size: nat, modTime: int)
  /** A path that a pattern matched, and what was found there. */
  datatype Match = Match(path: Path, info: FileInfo)

  datatype Status = StatusOk | StatusResume | StatusFailed
  datatype Orphaned = OrphanedNo | OrphanedMaybe | OrphanedYes

  /** What a harvester reports when it stops. */
  datatype Finish = Finish(lastEventOffset: int, failed: bool, modTime: Option<int>)

  datatype Clock = Clock(now: int, deadTime: int)

  class ProspectorInfo {
    var file: Path
    const identity: Identity
    var modTime: int
    var lastSeen: nat
    var status: Status
    var running: bool
    var orphaned: Orphaned
    var finishOffset: int
    /** Where its harvester was last started. */
    var startedAt: Option<int>

    constructor FromFileState(file: Path, identity: Identity, offset: int)
      ensures this.file == file && this.identity == identity && status == StatusResume
      ensures orphaned == OrphanedNo && lastSeen == 0 && !running && finishOffset == offset && startedAt == None
    {
      this.file, this.identity, modTime, lastSeen := file, identity, 0, 0;
      status, running, orphaned, finishOffset, startedAt := StatusResume, false, OrphanedNo, offset, None;
    }

    constructor FromFileInfo(file: Path, info: FileInfo)
      ensures this.file == file && identity == info.identity && modTime == info.modTime && status == StatusOk
      ensures orphaned == OrphanedNo && lastSeen == 0 && !running && finishOffset == 0 && startedAt == None
    {
      this.file, identity, modTime, lastSeen := file, info.identity, info.modTime, 0;
      status, running, orphaned, finishOffset, startedAt := StatusOk, false, OrphanedNo, 0, None;
    }

    /** Looks whether the harvester has reported its end. */
    method IsRunning(finish: Option<Finish>) returns (r: bool)
      modifies `running, `finishOffset, `status, `modTime
      ensures r == running == (old(running) && finish.None?)
      ensures finishOffset == old(OffsetAfter(finish)) && status == old(StatusAfter(finish))
      ensures modTime == old(ModTimeAfter(finish))
    {
      if !running {
        return false;
      }
      if finish.Some? {
        SetHarvesterStopped(finish.value);
      }
      r := running;
    }

    /** Where the harvester stopped, when it has reported its end. */
    function OffsetAfter(finish: Option<Finish>): int
      reads `running, `finishOffset
    {
      if running && finish.Some? then finish.value.lastEventOffset else finishOffset
    }

    function StatusAfter(finish: Option<Finish>): Status
      reads `running, `status
    {
      if running && finish.Some? && finish.value.failed then StatusFailed else status
    }

    function ModTimeAfter(finish: Option<Finish>): int
      reads `running, `modTime
    {
      if running && finish.Some? && finish.value.modTime.Some? then finish.value.modTime.value else modTime
    }

    /** No harvester is running, and there is one to be started: for a file that was saved unless it is old and read to
        its end, for one whose harvester failed, and for any other that was modified. */
    predicate Restarts(finish: Option<Finish>, info: FileInfo, clock: Clock)
      reads `running, `finishOffset, `status, `modTime
    {
      && !(running && finish.None?)
      && match StatusAfter(finish)
         case StatusResume => OffsetAfter(finish) != info.size || clock.now - info.modTime <= clock.deadTime
         case StatusFailed => true
         case StatusOk => ModTimeAfter(finish) != info.modTime
    }

    method SetHarvesterStopped(finish: Finish)
      modifies `running, `finishOffset, `status, `modTime
      ensures !running && finishOffset == finish.lastEventOffset
      ensures status == if finish.failed then StatusFailed else old(status)
      ensures modTime == if finish.modTime.Some? then finish.modTime.value else old(modTime)
    {
      running := false;
      finishOffset := finish.lastEventOffset;
      if finish.failed {
        status := StatusFailed;
      }
      if finish.modTime.Some? {
        modTime := finish.modTime.value;
      }
    }

    method Update(info: FileInfo, iteration: nat)
      modifies `modTime, `lastSeen
      ensures lastSeen == iteration && modTime == info.modTime
    {
      modTime := info.modTime;
      lastSeen := iteration;
    }
  }

  /** No two of the files that were saved are the same. */
  ghost predicate Different(previous: map<Path, (Identity, int)>) {
    forall p, q :: p in previous && q in previous && p != q ==> previous[p].0 != previous[q].0
  }

  datatype Lookup = NotFound | Duplicate | Found(info: ProspectorInfo)

  /** A scan sees each file under one name. */
  ghost predicate OneToOne(matches: seq<Match>) {
    forall i, j :: 0 <= i < |matches| && 0 <= j < |matches| ==>
      (matches[i].path == matches[j].path <==> matches[i].info.identity == matches[j].info.identity)
  }

  ghost predicate Scanned(matches: seq<Match>, identity: Identity) {
    exists j :: 0 <= j < |matches| && matches[j].info.identity == identity
  }

  ghost predicate PathScanned(matches: seq<Match>, path: Path) {
    exists j :: 0 <= j < |matches| && matches[j].path == path
  }

  lemma {:induction false} TrailProcesses(trail: seq<R.Saved<ProspectorInfo>>, es: seq<R.Event<ProspectorInfo>>)
    requires |trail| == |es| + 1 && forall k :: 0 <= k < |es| ==> trail[k + 1] == R.Process(trail[k], es[k])
    ensures trail[|es|] == R.ProcessAll(trail[0], es)
    decreases |es|
  {
    if es != [] {
      TrailProcesses(trail[1..], es[1..]);
    }
  }

  class Prospector {
    var prospectorindex: map<Path, ProspectorInfo>
    var prospectors: set<ProspectorInfo>
    var iteration: nat
    var fromBeginning: bool
    var lastscan: int
    var registrarSpool: seq<R.Event<ProspectorInfo>>

    /** The registrar's state, acknowledgements aside, after the batches sent so far. */
    ghost var saved: R.Saved<ProspectorInfo>
    /** The same after the batch being put together. */
    ghost var tracked: R.Saved<ProspectorInfo>
    /** The states in between. */
    ghost var trail: seq<R.Saved<ProspectorInfo>>

    ghost predicate Leads(index: map<Path, ProspectorInfo>, i: ProspectorInfo)
      reads i`file
    {
      i.file in index && index[i.file] == i
    }

    /** The index leads from names to exactly the files that have them, and no two entries are the
        same file. */
    ghost predicate Indexed(index: map<Path, ProspectorInfo>, infos: set<ProspectorInfo>)
      reads infos`file, infos`orphaned, infos`lastSeen, index.Values`file, index.Values`orphaned, `iteration
    {
      && (forall p :: p in index ==> index[p] in infos && index[p].file == p && index[p].orphaned == OrphanedNo)
      && (forall i {:trigger Leads(index, i)} :: i in infos && i.orphaned == OrphanedNo ==> Leads(index, i))
      && Distinct(infos)
      && (forall i :: i in infos ==> i.lastSeen <= iteration)
    }

    /** The registrar follows no file that is given up, and has the names of those it follows. */
    ghost predicate Followed(infos: set<ProspectorInfo>)
      reads `tracked, infos`file, infos`orphaned
    {
      && tracked.Keys <= infos
      && (forall i :: i in infos && i in tracked ==> i.orphaned != OrphanedYes && tracked[i].source == i.file)
    }

    /** The batch leads the registrar from what it has saved to `tracked`. */
    ghost predicate Spooled()
      reads `saved, `tracked, `trail, `registrarSpool
    {
      && |trail| == |registrarSpool| + 1 && trail[0] == saved && trail[|registrarSpool|] == tracked
      && forall k :: 0 <= k < |registrarSpool| ==> trail[k + 1] == R.Process(trail[k], registrarSpool[k])
    }

    ghost predicate Valid()
      reads this, prospectors, prospectorindex.Values
    {
      Indexed(prospectorindex, prospectors) && Followed(prospectors) && Spooled()
    }

    method AddEvent(event: R.Event<ProspectorInfo>)
      requires Spooled()
      modifies `registrarSpool, `tracked, `trail
      ensures Spooled() && tracked == R.Process(old(tracked), event)
      ensures registrarSpool == old(registrarSpool) + [event]
    {
      registrarSpool := registrarSpool + [event];
      tracked := R.Process(tracked, event);
      trail := trail + [tracked];
    }

    /** What was saved for each file, its identity and offset, goes to the registrar as well. The files were distinct
        when saved. */
    constructor (previous: Option<map<Path, (Identity, int)>>, fromBeginning: bool, r: R.Registrar<ProspectorInfo>)
      requires r.state == map[] && (previous.Some? ==> Different(previous.value))
      modifies r
      ensures Valid() && registrarSpool == [] && saved.Keys == prospectors == prospectorindex.Values
      ensures fresh(prospectors) && r.state == saved
      ensures previous.None? ==> prospectorindex == map[] && this.fromBeginning == fromBeginning
      ensures previous.Some? ==> this.fromBeginning && prospectorindex.Keys == previous.value.Keys
      ensures previous.Some? ==> forall i :: i in prospectors ==> Restored(previous.value, i)
    {
      prospectorindex, prospectors, iteration, lastscan, registrarSpool := map[], {}, 0, 0, [];
      this.fromBeginning, saved, tracked, trail := fromBeginning || previous.Some?, map[], map[], [map[]];
      new;
      if previous.Some? {
        Load(previous.value, r);
      }
    }

    /** LoadPrevious of the registrar, with loadCallback for every file that was saved. */
    method Load(previous: map<Path, (Identity, int)>, r: R.Registrar<ProspectorInfo>)
      requires registrarSpool == [] && prospectorindex == map[] && prospectors == {}
      requires saved == tracked == r.state == map[] && trail == [saved] && Different(previous)
      modifies `prospectorindex, `prospectors, `saved, `tracked, `trail, r
      ensures Valid() && saved.Keys == prospectors == prospectorindex.Values && fresh(prospectors) && r.state == saved
      ensures prospectorindex.Keys == previous.Keys && forall i :: i in prospectors ==> Restored(previous, i)
    {
      var rest := previous.Keys;
      while rest != {}
        invariant rest <= previous.Keys && prospectorindex.Keys == previous.Keys - rest
        invariant Loading(previous, r) && fresh(prospectors)
        decreases rest
      {
        var p :| p in rest;
        LoadNext(previous, p, r);
        rest := rest - {p};
      }
      AllRestored(previous);
    }

    /** loadCallback, for one file that was saved. */
    method LoadNext(previous: map<Path, (Identity, int)>, p: Path, r: R.Registrar<ProspectorInfo>)
      requires Different(previous) && p in previous && p !in prospectorindex
      requires Loading(previous, r)
      modifies `prospectorindex, `prospectors, `saved, `tracked, `trail, r
      ensures Loading(previous, r) && fresh(prospectors - old(prospectors))
      ensures prospectorindex.Keys == old(prospectorindex).Keys + {p}
    {
      forall i | i in prospectors ensures i.identity != previous[p].0 {
        assert Restored(previous, i) && Leads(prospectorindex, i);
      }
      LoadOne(p, previous[p].0, previous[p].1);
      r.LoadOne(prospectorindex[p], R.FileState(p, previous[p].1));
    }

    ghost predicate Loading(previous: map<Path, (Identity, int)>, r: R.Registrar<ProspectorInfo>)
      reads this, prospectors, prospectorindex.Values, r
    {
      && Indexed(prospectorindex, prospectors) && Followed(prospectors)
      && saved == tracked == r.state && trail == [saved] && saved.Keys == prospectors
      && forall i :: i in prospectors ==> Restored(previous, i)
    }

    /** An entry has the identity and the offset saved under its name, and is to resume there; the registrar has the
        same. */
    ghost predicate Restored(previous: map<Path, (Identity, int)>, i: ProspectorInfo)
      reads `saved, i`file, i`orphaned, i`status, i`finishOffset
    {
      && i.orphaned == OrphanedNo && i.file in previous && previous[i.file] == (i.identity, i.finishOffset)
      && i.status == StatusResume && i in saved && saved[i] == R.FileState(i.file, i.finishOffset)
    }

    lemma AllRestored(previous: map<Path, (Identity, int)>)
      requires Indexed(prospectorindex, prospectors) && forall i :: i in prospectors ==> Restored(previous, i)
      ensures prospectors == prospectorindex.Values
    {
      forall i | i in prospectors ensures i in prospectorindex.Values {
        assert Restored(previous, i) && Leads(prospectorindex, i);
      }
    }

    method LoadOne(file: Path, identity: Identity, offset: int)
      requires file !in prospectorindex && forall i :: i in prospectors ==> i.identity != identity
      requires Indexed(prospectorindex, prospectors) && Followed(prospectors) && saved == tracked
      modifies `prospectorindex, `prospectors, `saved, `tracked, `trail
      ensures Indexed(prospectorindex, prospectors) && Followed(prospectors) && saved == tracked && trail == [saved]
      ensures file in prospectorindex && fresh(prospectorindex[file])
      ensures var i := prospectorindex[file];
        && prospectorindex == old(prospectorindex)[file := i] && prospectors == old(prospectors) + {i}
        && saved == old(saved)[i := R.FileState(file, offset)] && i !in old(prospectors)
        && i.identity == identity && i.status == StatusResume && i.finishOffset == offset
    {
      var i := new ProspectorInfo.FromFileState(file, identity, offset);
      assert prospectorindex - {file} == prospectorindex;
      PutIn(prospectorindex, prospectors, i, file);
      prospectorindex, prospectors := prospectorindex[file := i], prospectors + {i};
      saved := saved[i := R.FileState(file, offset)];
      tracked, trail := saved, [saved];
    }

    /** The search of lookupFileIds. An entry in the index under the same name has been compared already. */
    method Find(file: Path, identity: Identity) returns (r: Lookup)
      ensures r.NotFound? ==> forall i :: i in prospectors && i.identity == identity ==>
        i.orphaned == OrphanedNo && i.file == file
      ensures r.Found? ==>
        && r.info in prospectors && r.info.identity == identity && r.info.lastSeen != iteration
        && !(r.info.orphaned == OrphanedNo && r.info.file == file)
      ensures r.Duplicate? ==> exists i ::
        i in prospectors && i.identity == identity && i.lastSeen == iteration
          && !(i.orphaned == OrphanedNo && i.file == file)
    {
      var rest := prospectors;
      while rest != {}
        invariant rest <= prospectors
        invariant forall i :: i in prospectors && i !in rest && i.identity == identity ==>
          i.orphaned == OrphanedNo && i.file == file
        decreases rest
      {
        var ki :| ki in rest;
        rest := rest - {ki};
        if ki.orphaned == OrphanedNo && ki.file == file {
          continue;
        }
        if ki.identity == identity {
          return if ki.lastSeen == iteration then Duplicate else Found(ki);
        }
      }
      r := NotFound;
    }

    /** Every name but `file` leads where it led before, except that none leads to `info` any more. */
    twostate predicate OthersKeep(file: Path, new info: ProspectorInfo)
      reads this
    {
      forall p :: p != file ==>
        && (p in prospectorindex <==> p in old(prospectorindex) && old(prospectorindex)[p] != info)
        && (p in prospectorindex ==> prospectorindex[p] == old(prospectorindex)[p])
    }

    lemma Leading(index: map<Path, ProspectorInfo>, infos: set<ProspectorInfo>)
      requires Indexed(index, infos)
      ensures forall i :: i in infos && i.orphaned == OrphanedNo ==> i.file in index && index[i.file] == i
    {
      forall i | i in infos && i.orphaned == OrphanedNo ensures i.file in index && index[i.file] == i {
        assert Leads(index, i);
      }
    }

    /** The part of lookupFileIds that takes out the entry found. */
    method TakeOut(info: ProspectorInfo, ghost file: Path)
      requires Indexed(prospectorindex - {file}, prospectors) && Followed(prospectors)
      requires info in prospectors && (info.orphaned == OrphanedNo ==> info.file != file)
      modifies `prospectors, `prospectorindex, info`orphaned
      ensures Indexed(prospectorindex - {file}, prospectors) && OthersKeep(file, info)
      ensures prospectors == old(prospectors) - {info} && info.orphaned == OrphanedNo
    {
      ghost var index := prospectorindex - {file};
      Leading(index, prospectors);
      assert forall p :: p in index && index[p] == info ==> info.orphaned == OrphanedNo && p == info.file;
      prospectors := prospectors - {info};
      if info.orphaned == OrphanedNo {
        prospectorindex := prospectorindex - {info.file};
      } else {
        info.orphaned := OrphanedNo;
      }
      assert forall p :: p != file ==> (p in index <==> p in old(prospectorindex));
    }

    lemma PutIn(index: map<Path, ProspectorInfo>, infos: set<ProspectorInfo>, info: ProspectorInfo, file: Path)
      requires Indexed(index - {file}, infos) && info !in infos
      requires forall i :: i in infos ==> i.identity != info.identity
      requires info.file == file && info.orphaned == OrphanedNo && info.lastSeen <= iteration
      ensures Indexed(index[file := info], infos + {info})
    {
      var m := index - {file};
      Leading(m, infos);
      forall p | p in index[file := info] && p != file
        ensures index[p] in infos && index[p].file == p && index[p].orphaned == OrphanedNo
      {
        assert p in m && m[p] == index[p];
      }
    }

    /** A file we know has turned up under another name. */
    method Rename(info: ProspectorInfo, file: Path)
      requires Indexed(prospectorindex - {file}, prospectors) && Followed(prospectors) && Spooled()
      requires info in prospectors && (info.orphaned == OrphanedNo ==> info.file != file)
      modifies `prospectors, `prospectorindex, `registrarSpool, `tracked, `trail, info`orphaned, info`file
      ensures Indexed(prospectorindex[file := info], prospectors) && Followed(prospectors) && Spooled()
      ensures prospectors == old(prospectors) && OthersKeep(file, info)
      ensures registrarSpool == old(registrarSpool) + [R.Renamed(info, file)]
      ensures tracked.Keys == old(tracked).Keys
    {
      TakeOut(info, file);
      info.file := file;
      PutIn(prospectorindex, prospectors, info, file);
      AddEvent(R.Renamed(info, file));
      prospectors := prospectors + {info};
      assert prospectors == old(prospectors);
    }

    method StartHarvesterWithOffset(info: ProspectorInfo, offset: int)
      modifies info`running, info`status, info`startedAt
      ensures info.running && info.status == StatusOk && info.startedAt == Some(offset)
    {
      info.startedAt := Some(offset);
      info.running := true;
      info.status := StatusOk;
    }

    /** The registrar is told of a file that is new to it. */
    method Discover(info: ProspectorInfo, offset: int)
      requires Indexed(prospectorindex - {info.file}, prospectors) && Followed(prospectors) && Spooled()
      requires info !in prospectors && forall i :: i in prospectors ==> i.identity != info.identity
      requires info.orphaned == OrphanedNo && info.lastSeen <= iteration
      modifies `registrarSpool, `tracked, `trail, `prospectors
      ensures prospectors == old(prospectors) + {info}
      ensures registrarSpool == old(registrarSpool) + [R.Event.Discover(info, info.file, offset)]
      ensures tracked.Keys == old(tracked).Keys + {info}
      ensures Indexed(prospectorindex[info.file := info], prospectors) && Followed(prospectors) && Spooled()
    {
      PutIn(prospectorindex, prospectors, info, info.file);
      AddEvent(R.Event.Discover(info, info.file, offset));
      prospectors := prospectors + {info};
    }

    /** A file that is new: it is harvested, unless it is old and its name is new as well. */
    method Create(m: Match, rotated: bool, clock: Clock) returns (info: ProspectorInfo)
      requires Indexed(prospectorindex - {m.path}, prospectors) && Followed(prospectors) && Spooled()
      requires forall i :: i in prospectors ==> i.identity != m.info.identity
      modifies `registrarSpool, `tracked, `trail, `prospectors
      ensures fresh(info) && info.identity == m.info.identity && prospectors == old(prospectors) + {info}
      ensures info.file == m.path && info.modTime == m.info.modTime && info.status == StatusOk
      ensures Indexed(prospectorindex[m.path := info], prospectors) && Followed(prospectors) && Spooled()
      ensures registrarSpool ==
        old(registrarSpool) + [R.Event.Discover(info, m.path, FirstOffset(m.info, rotated, clock))]
      ensures tracked.Keys == old(tracked).Keys + {info}
      ensures info.running == !Dead(m.info, rotated, clock)
      ensures if Dead(m.info, rotated, clock) then info.startedAt == None && info.finishOffset == m.info.size
              else info.startedAt == Some(FirstOffset(m.info, rotated, clock))
    {
      info := new ProspectorInfo.FromFileInfo(m.path, m.info);
      var dead := !rotated && m.info.modTime < lastscan && clock.now - m.info.modTime > clock.deadTime;
      var offset := if !dead && fromBeginning then 0 else m.info.size;
      Discover(info, offset);
      Begin(info, dead, m.info.size, offset);
    }

    /** A new file is harvested, or, when it is dead, counted as read to its end. */
    method Begin(info: ProspectorInfo, dead: bool, size: int, offset: int)
      requires info.status == StatusOk && info.startedAt == None && !info.running
      modifies info`running, info`status, info`startedAt, info`finishOffset
      ensures info.status == StatusOk && info.running == !dead
      ensures if dead then info.startedAt == None && info.finishOffset == size else info.startedAt == Some(offset)
    {
      if dead {
        info.finishOffset := size;
      } else {
        StartHarvesterWithOffset(info, offset);
      }
    }

    /** The file was not modified since the last scan began, nor within the dead time. */
    predicate Dead(info: FileInfo, rotated: bool, clock: Clock)
      reads `lastscan
    {
      !rotated && info.modTime < lastscan && clock.now - info.modTime > clock.deadTime
    }

    /** Where a new file is read from. */
    function FirstOffset(info: FileInfo, rotated: bool, clock: Clock): int
      reads `lastscan, `fromBeginning
    {
      if !Dead(info, rotated, clock) && fromBeginning then 0 else info.size
    }

    /** Finds out which file it is that a name leads to now. */
    method Identify(m: Match, rotated: bool, clock: Clock) returns (info: ProspectorInfo)
      requires Indexed(prospectorindex - {m.path}, prospectors) && Followed(prospectors) && Spooled()
      requires forall i :: i in prospectors && i.identity == m.info.identity ==> i.lastSeen < iteration
      modifies `prospectors, `prospectorindex, `registrarSpool, `tracked, `trail, prospectors`orphaned, prospectors`file
      ensures Indexed(prospectorindex[m.path := info], prospectors) && Followed(prospectors) && Spooled()
      ensures OthersKeep(m.path, info)
      ensures info.identity == m.info.identity && prospectors == old(prospectors) + {info}
      ensures info in old(prospectors) || (fresh(info) &&
        forall i :: i in old(prospectors) ==> i.identity != info.identity)
      ensures forall i :: i in old(prospectors) && i != info ==> i.orphaned == old(i.orphaned) && i.file == old(i.file)
      ensures tracked.Keys == old(tracked).Keys + (prospectors - old(prospectors))
    {
      var lookup := Find(m.path, m.info.identity);
      Leading(prospectorindex - {m.path}, prospectors);
      match lookup {
        case Duplicate => assert false;
        case Found(previous) =>
          info := previous;
          Rename(info, m.path);
        case NotFound =>
          info := Create(m, rotated, clock);
      }
    }

    /** Whether the harvester of a known file is to be started again, having stopped. */
    method Resumable(info: ProspectorInfo, m: Match, finish: Option<Finish>, clock: Clock) returns (resume: bool)
      modifies info`running, info`finishOffset, info`status, info`modTime
      ensures resume == old(info.Restarts(finish, m.info, clock))
      ensures info.running == (old(info.running) && finish.None?)
      ensures info.finishOffset == old(info.OffsetAfter(finish))
    {
      var running := info.IsRunning(finish);
      resume := !running;
      if resume {
        if info.status == StatusResume {
          if info.finishOffset == m.info.size && clock.now - m.info.modTime > clock.deadTime {
            info.status := StatusOk;
            resume := false;
          }
        } else if info.status != StatusFailed && info.modTime == m.info.modTime {
          resume := false;
        }
      }
    }

    /** The end of processFile. */
    method Resume(info: ProspectorInfo, m: Match, finish: Option<Finish>, clock: Clock)
      modifies info`running, info`finishOffset, info`status, info`modTime, info`lastSeen, info`startedAt
      ensures info.lastSeen == iteration && info.modTime == m.info.modTime
      ensures info.running == ((old(info.running) && finish.None?) || old(info.Restarts(finish, m.info, clock)))
      ensures info.startedAt ==
        if old(info.Restarts(finish, m.info, clock)) then Some(old(info.OffsetAfter(finish))) else old(info.startedAt)
    {
      var resume := Resumable(info, m, finish, clock);
      info.Update(m.info, iteration);
      if resume {
        StartHarvesterWithOffset(info, info.finishOffset);
      }
    }

    /** Works out which file a name leads to: the same as before, one that was moved here, or a new one. */
    method Locate(m: Match, clock: Clock) returns (info: ProspectorInfo)
      requires Valid()
      requires forall i :: i in prospectors && i.identity == m.info.identity && i.lastSeen == iteration ==>
        i.orphaned == OrphanedNo && i.file == m.path
      modifies `prospectors, `prospectorindex, `registrarSpool, `tracked, `trail, prospectors`orphaned, prospectors`file
      ensures Indexed(prospectorindex[m.path := info], prospectors) && Followed(prospectors) && Spooled()
      ensures OthersKeep(m.path, info)
      ensures info.identity == m.info.identity && prospectors == old(prospectors) + {info}
      ensures info in old(prospectors) || (fresh(info) &&
        forall i :: i in old(prospectors) ==> i.identity != info.identity)
      ensures forall i :: i in old(prospectors) && i != info ==> i.file == old(i.file)
      ensures forall i :: i in old(prospectors) && i != info && i.orphaned != old(i.orphaned) ==>
        i.orphaned == OrphanedMaybe && old(i.orphaned) == OrphanedNo && old(i.file) == m.path
      ensures tracked.Keys == old(tracked).Keys + (prospectors - old(prospectors))
    {
      Leading(prospectorindex, prospectors);
      if m.path !in prospectorindex {
        assert prospectorindex - {m.path} == prospectorindex;
        info := Identify(m, false, clock);
      } else {
        info := prospectorindex[m.path];
        if info.identity != m.info.identity {
          info.orphaned := OrphanedMaybe;
          info := Identify(m, true, clock);
        } else {
          assert prospectorindex[m.path := info] == prospectorindex;
        }
      }
    }

    /** processFile: one match of a scan. */
    method ProcessFile(m: Match, finish: Option<Finish>, clock: Clock) returns (info: ProspectorInfo)
      requires Valid()
      requires forall i :: i in prospectors && i.identity == m.info.identity && i.lastSeen == iteration ==>
        i.orphaned == OrphanedNo && i.file == m.path
      modifies `prospectors, `prospectorindex, `registrarSpool, `tracked, `trail
      modifies prospectors`orphaned, prospectors`file, prospectors`lastSeen
      modifies prospectors`running, prospectors`finishOffset, prospectors`status, prospectors`modTime,
        prospectors`startedAt
      ensures Valid() && m.path in prospectorindex && prospectorindex[m.path] == info && info.lastSeen == iteration
      ensures info.identity == m.info.identity && prospectors == old(prospectors) + {info} && OthersKeep(m.path, info)
      ensures info in old(prospectors) || (fresh(info) &&
        forall i :: i in old(prospectors) ==> i.identity != info.identity)
      ensures forall i :: i in old(prospectors) && i != info ==> i.lastSeen == old(i.lastSeen) && i.file == old(i.file)
      ensures forall i :: i in old(prospectors) && i != info ==> i.running == old(i.running)
      ensures forall i :: i in old(prospectors) && i != info && i.orphaned != old(i.orphaned) ==>
        i.orphaned == OrphanedMaybe && old(i.orphaned) == OrphanedNo && old(i.file) == m.path
      ensures tracked.Keys == old(tracked).Keys + (prospectors - old(prospectors))
    {
      info := Locate(m, clock);
      Resume(info, m, finish, clock);
      prospectorindex := prospectorindex[m.path := info];
    }

    /** The names scanned so far lead to the files found under them, and no other file has been seen. */
    ghost predicate Reached(matches: seq<Match>, k: nat)
      requires k <= |matches|
      reads this, prospectors, prospectorindex.Values
    {
      && (forall j :: 0 <= j < k ==>
            && matches[j].path in prospectorindex
            && prospectorindex[matches[j].path].identity == matches[j].info.identity
            && prospectorindex[matches[j].path].lastSeen == iteration)
      && (forall i :: i in prospectors && i.lastSeen == iteration ==>
            && i.orphaned == OrphanedNo
            && exists j :: 0 <= j < k && matches[j].path == i.file && matches[j].info.identity == i.identity)
    }

    /** One match of the scan, given those before it. */
    method ProcessNext(matches: seq<Match>, k: nat, finish: Option<Finish>, clock: Clock) returns (info: ProspectorInfo)
      requires Valid() && OneToOne(matches) && k < |matches| && Reached(matches, k)
      modifies `prospectors, `prospectorindex, `registrarSpool, `tracked, `trail
      modifies prospectors`orphaned, prospectors`file, prospectors`lastSeen
      modifies prospectors`running, prospectors`finishOffset, prospectors`status, prospectors`modTime,
        prospectors`startedAt
      ensures Valid() && Reached(matches, k + 1)
      ensures info.identity == matches[k].info.identity && prospectors == old(prospectors) + {info}
      ensures info.orphaned == OrphanedNo && (info in old(prospectors) || fresh(info))
      ensures forall i :: i in old(prospectors) && i != info ==> i.file == old(i.file) && i.running == old(i.running)
      ensures forall i :: i in old(prospectors) && i != info && i.orphaned != old(i.orphaned) ==>
        old(i.file) == matches[k].path
      ensures tracked.Keys == old(tracked).Keys + (prospectors - old(prospectors))
    {
      var m := matches[k];
      info := ProcessFile(m, finish, clock);
      forall j | 0 <= j < k + 1
        ensures matches[j].path in prospectorindex
        ensures prospectorindex[matches[j].path].identity == matches[j].info.identity
        ensures prospectorindex[matches[j].path].lastSeen == iteration
      {
        if matches[j].path != m.path {
          assert old(prospectorindex)[matches[j].path] != info;
        }
      }
    }

    /** The scan of a whole iteration: the matches of all patterns, in order. */
    method Scan(matches: seq<Match>, finishes: nat -> Option<Finish>, clock: Clock)
      requires Valid() && OneToOne(matches) && forall i :: i in prospectors ==> i.lastSeen < iteration
      modifies `prospectors, `prospectorindex, `registrarSpool, `tracked, `trail
      modifies prospectors`orphaned, prospectors`file, prospectors`lastSeen
      modifies prospectors`running, prospectors`finishOffset, prospectors`status, prospectors`modTime,
        prospectors`startedAt
      ensures Valid() && Reached(matches, |matches|)
      ensures old(prospectors) <= prospectors && fresh(prospectors - old(prospectors))
      ensures tracked.Keys == old(tracked).Keys + (prospectors - old(prospectors))
      ensures forall i :: i in old(prospectors) && !Scanned(matches, i.identity) ==>
        i.running == old(i.running) && (!PathScanned(matches, old(i.file)) ==> i.orphaned == old(i.orphaned))
    {
      var k := 0;
      while k < |matches|
        invariant 0 <= k <= |matches|
        invariant Valid() && Reached(matches, k)
        invariant old(prospectors) <= prospectors && fresh(prospectors - old(prospectors))
        invariant tracked.Keys == old(tracked).Keys + (prospectors - old(prospectors))
        invariant forall i :: i in old(prospectors) && !Scanned(matches, i.identity) ==>
          && i.running == old(i.running) && i.file == old(i.file)
          && (!PathScanned(matches, old(i.file)) ==> i.orphaned == old(i.orphaned))
      {
        var info := ProcessNext(matches, k, finishes(k), clock);
        k := k + 1;
      }
    }

    /** One entry of the clean-up. */
    method CleanOne(info: ProspectorInfo, finish: Option<Finish>)
      requires Valid() && info in prospectors
      modifies `prospectors, `prospectorindex, `registrarSpool, `tracked, `trail
      modifies info`orphaned, info`running, info`finishOffset, info`status, info`modTime
      ensures Valid() && old(prospectors) - {info} <= prospectors <= old(prospectors)
      ensures info.orphaned == old(Verdict(info))
      ensures old(info.orphaned) == OrphanedNo ==> info in prospectors
      ensures old(info.running) && finish.None? ==> info in prospectors && info.running
      ensures tracked.Keys == if info.orphaned == OrphanedYes then old(tracked).Keys - {info} else old(tracked).Keys
      ensures registrarSpool == old(registrarSpool) +
        if info.orphaned == OrphanedYes && old(info.orphaned) != OrphanedYes then [R.Deleted(info)] else []
    {
      Leading(prospectorindex, prospectors);
      if info.orphaned != OrphanedNo {
        var running := info.IsRunning(finish);
        if !running {
          prospectors := prospectors - {info};
        }
      } else {
        if info.lastSeen >= iteration {
          return;
        }
        prospectorindex := prospectorindex - {info.file};
        info.orphaned := OrphanedMaybe;
      }
      if info.orphaned == OrphanedMaybe {
        GiveUp(info);
      }
    }

    /** The registrar is told to forget a file. */
    method GiveUp(info: ProspectorInfo)
      requires Spooled() && info.orphaned == OrphanedMaybe
      modifies `registrarSpool, `tracked, `trail, info`orphaned
      ensures Spooled() && info.orphaned == OrphanedYes && tracked == old(tracked) - {info}
      ensures registrarSpool == old(registrarSpool) + [R.Deleted(info)]
    {
      info.orphaned := OrphanedYes;
      AddEvent(R.Deleted(info));
    }

    /** The clean-up: entries not seen in this scan are given up, and forgotten once they are not being
        read any more. */
    method CleanUp(finishes: ProspectorInfo -> Option<Finish>)
      requires Valid()
      modifies `prospectors, `prospectorindex, `registrarSpool, `tracked, `trail
      modifies prospectors`orphaned, prospectors`running, prospectors`finishOffset, prospectors`status,
        prospectors`modTime
      ensures Valid() && prospectors <= old(prospectors)
      ensures forall i :: i in old(prospectors) ==> i.orphaned == old(Verdict(i))
      ensures forall i :: i in old(prospectors) && old(i.orphaned) == OrphanedNo ==> i in prospectors
      ensures forall i :: i in old(prospectors) && old(i.running) && finishes(i).None? ==> i in prospectors && i.running
      ensures forall i :: i in tracked <==> i in old(tracked) && i.orphaned == OrphanedNo
    {
      ghost var verdicts := map i | i in prospectors :: Verdict(i);
      ghost var kept := set i | i in prospectors && i.orphaned == OrphanedNo;
      ghost var read := set i | i in prospectors && i.running && finishes(i).None?;
      ghost var followed := tracked.Keys;
      var rest := prospectors;
      while rest != {}
        invariant prospectors <= old(prospectors) && Sweeping(rest, verdicts, kept, read, followed)
        decreases rest
      {
        var info :| info in rest;
        CleanNext(info, finishes(info), rest, verdicts, kept, read, followed);
        rest := rest - {info};
      }
    }

    /** The clean-up has the rest of the entries still to come. */
    ghost predicate Sweeping(rest: set<ProspectorInfo>, verdicts: map<ProspectorInfo, Orphaned>,
      kept: set<ProspectorInfo>, read: set<ProspectorInfo>, followed: set<ProspectorInfo>)
      reads this, prospectors, prospectorindex.Values, verdicts.Keys
    {
      && Valid() && rest + kept + read <= prospectors <= verdicts.Keys
      && (forall i :: i in verdicts ==> (if i in rest then Verdict(i) else i.orphaned) == verdicts[i])
      && (forall i :: i in rest && i in kept ==> i.orphaned == OrphanedNo)
      && (forall i :: i in read ==> i.running)
      && tracked.Keys <= followed
      && (forall i :: i in verdicts && i in followed && i.orphaned != OrphanedYes ==> i in tracked)
    }

    method CleanNext(info: ProspectorInfo, finish: Option<Finish>, ghost rest: set<ProspectorInfo>,
      ghost verdicts: map<ProspectorInfo, Orphaned>,
      ghost kept: set<ProspectorInfo>, ghost read: set<ProspectorInfo>, ghost followed: set<ProspectorInfo>)
      requires Sweeping(rest, verdicts, kept, read, followed) && info in rest && (info in read ==> finish.None?)
      modifies `prospectors, `prospectorindex, `registrarSpool, `tracked, `trail
      modifies info`orphaned, info`running, info`finishOffset, info`status, info`modTime
      ensures Sweeping(rest - {info}, verdicts, kept, read, followed) && prospectors <= old(prospectors)
    {
      CleanOne(info, finish);
    }

    /** Whether the clean-up keeps an entry. */
    function Verdict(info: ProspectorInfo): Orphaned
      reads info`orphaned, info`lastSeen, `iteration
    {
      if info.orphaned == OrphanedNo && info.lastSeen >= iteration then OrphanedNo else OrphanedYes
    }

    /** The index holds the names scanned, each leading to the file found under it. */
    ghost predicate Settled(matches: seq<Match>)
      reads `prospectorindex
    {
      && (forall p :: p in prospectorindex ==> exists j :: 0 <= j < |matches| && matches[j].path == p)
      && (forall j :: 0 <= j < |matches| ==>
            matches[j].path in prospectorindex && prospectorindex[matches[j].path].identity == matches[j].info.identity)
    }

    lemma IndexedIsLive(i: ProspectorInfo)
      requires Valid()
      ensures i in prospectorindex.Values <==> i in prospectors && i.orphaned == OrphanedNo
    {
      Leading(prospectorindex, prospectors);
    }

    /** The clean-up after a complete scan. */
    method CleanScanned(matches: seq<Match>, ends: ProspectorInfo -> Option<Finish>)
      requires Valid() && Reached(matches, |matches|)
      modifies `prospectors, `prospectorindex, `registrarSpool, `tracked, `trail
      modifies prospectors`orphaned, prospectors`running, prospectors`finishOffset, prospectors`status,
        prospectors`modTime
      ensures Valid() && Settled(matches) && prospectors <= old(prospectors)
      ensures tracked.Keys == old(tracked).Keys * prospectorindex.Values
      ensures forall i :: i in old(prospectors) && old(i.orphaned) == OrphanedNo ==> i in prospectors
      ensures forall i :: i in old(prospectors) && old(i.running) && ends(i).None? ==> i in prospectors && i.running
    {
      ghost var found := prospectorindex;
      CleanUp(ends);
      Leading(prospectorindex, prospectors);
      forall p | p in prospectorindex ensures exists j :: 0 <= j < |matches| && matches[j].path == p {
        var i := prospectorindex[p];
        assert i in old(prospectors) && old(i.lastSeen) == iteration;
      }
      forall j | 0 <= j < |matches|
        ensures matches[j].path in prospectorindex
          && prospectorindex[matches[j].path].identity == matches[j].info.identity
      {
        var i := found[matches[j].path];
        assert i in prospectors && i.orphaned == OrphanedNo && i.file == matches[j].path;
      }
      forall i ensures i in tracked <==> i in old(tracked) && i in prospectorindex.Values {
        IndexedIsLive(i);
      }
    }

    /** The batch goes to the registrar. */
    method Send() returns (batch: seq<R.Event<ProspectorInfo>>)
      requires Valid()
      modifies `registrarSpool, `saved, `trail
      ensures Valid() && registrarSpool == [] && batch == old(registrarSpool)
      ensures saved == tracked == R.ProcessAll(old(saved), batch)
    {
      TrailProcesses(trail, registrarSpool);
      trail := [tracked];
      batch := registrarSpool;
      registrarSpool := [];
      saved := tracked;
    }

    /** The scan of an iteration and the clean-up after it. */
    method ScanAndClean(matches: seq<Match>, finishes: nat -> Option<Finish>, ends: ProspectorInfo -> Option<Finish>,
      clock: Clock)
      requires Valid() && OneToOne(matches) && forall i :: i in prospectors ==> i.lastSeen < iteration
      modifies `prospectors, `prospectorindex, `registrarSpool, `tracked, `trail, `fromBeginning, prospectors
      ensures Valid() && Settled(matches) && fresh(prospectors - old(prospectors))
      ensures Distinct(prospectors + old(prospectors))
      ensures tracked.Keys == prospectorindex.Values - (old(prospectors) - old(tracked).Keys)
      ensures forall i :: i in old(prospectors) && !Scanned(matches, i.identity) && old(i.running) && ends(i).None? ==>
        i in prospectors && i.running
      ensures forall i ::
        i in old(prospectorindex.Values) && !Scanned(matches, i.identity) && !PathScanned(matches, old(i.file)) ==>
        i in prospectors
    {
      Scan(matches, finishes, clock);
      fromBeginning := true;
      ghost var known := prospectors;
      assert Distinct(known);
      CleanScanned(matches, ends);
      assert prospectors + old(prospectors) <= known;
      Survivors(old(tracked).Keys, old(prospectors), known, prospectorindex.Values);
    }

    /** One iteration of the prospector: a scan, the clean-up, and the batch for the registrar. Afterwards the index
        holds exactly the names scanned, each leading to the file now found under it. A file that was known
        keeps its entry, whatever its name is now. The registrar has every file it follows under its
        present name; and it follows every file in the index, except those that were known but not
        followed before. A file that is not found is remembered for as long as it is being read, and in
        any case, unless another file has its name, until the next iteration. */
    method RunOnce(matches: seq<Match>, finishes: nat -> Option<Finish>, ends: ProspectorInfo -> Option<Finish>,
      clock: Clock)
      returns (batch: seq<R.Event<ProspectorInfo>>)
      requires Valid() && registrarSpool == [] && OneToOne(matches)
      modifies this, prospectors
      ensures Valid() && registrarSpool == [] && Distinct(prospectors) && Settled(matches)
      ensures fresh(prospectors - old(prospectors))
      ensures prospectorindex.Values <= prospectors && Recognised(matches, old(prospectors))
      ensures saved == R.ProcessAll(old(saved), batch)
      ensures saved.Keys == prospectorindex.Values - (old(prospectors) - old(saved.Keys))
      ensures Named()
      ensures forall i :: i in old(prospectors) && !Scanned(matches, i.identity) && old(i.running) && ends(i).None? ==>
        i in prospectors && i.running
      ensures forall i ::
        i in old(prospectorindex.Values) && !Scanned(matches, i.identity) && !PathScanned(matches, old(i.file)) ==>
        i in prospectors
    {
      iteration := iteration + 1;
      ScanAndClean(matches, finishes, ends, clock);
      IndexKeeps(matches, old(prospectors));
      lastscan := clock.now;
      batch := Send();
    }

    /** Every file the registrar follows is found under the name the registrar has for it. */
    ghost predicate Named()
      reads `saved, `prospectorindex
    {
      forall i :: i in saved ==> saved[i].source in prospectorindex && prospectorindex[saved[i].source] == i
    }

    /** The files scanned that were known before have kept their entries. */
    ghost predicate Recognised(matches: seq<Match>, before: set<ProspectorInfo>)
      requires Settled(matches)
      reads `prospectorindex
    {
      forall i, j :: i in before && 0 <= j < |matches| && i.identity == matches[j].info.identity ==>
        prospectorindex[matches[j].path] == i
    }

    /** The registrar follows every file in the index exactly when no file comes back that was known but not
        followed any more, which is to say one whose deletion was already reported. */
    lemma AgreementLost(matches: seq<Match>, before: set<ProspectorInfo>, followed: set<ProspectorInfo>)
      requires Valid() && Settled(matches) && Recognised(matches, before) && Distinct(before)
      requires saved.Keys == prospectorindex.Values - (before - followed)
      ensures saved.Keys == prospectorindex.Values <==>
        forall i, j :: i in before && i !in followed && 0 <= j < |matches| ==> i.identity != matches[j].info.identity
    {
      forall i | i in before && i in prospectorindex.Values
        ensures exists j :: 0 <= j < |matches| && i.identity == matches[j].info.identity
      {
        var p :| p in prospectorindex && prospectorindex[p] == i;
        var j :| 0 <= j < |matches| && matches[j].path == p;
      }
    }

    lemma IndexKeeps(matches: seq<Match>, before: set<ProspectorInfo>)
      requires Valid() && Settled(matches) && Distinct(prospectors + before)
      ensures Recognised(matches, before)
    {
      forall i, j | i in before && 0 <= j < |matches| && i.identity == matches[j].info.identity
        ensures prospectorindex[matches[j].path] == i
      {
        assert prospectorindex[matches[j].path] in prospectors + before && i in prospectors + before;
      }
    }
  }

  lemma Survivors<T>(followed: set<T>, before: set<T>, known: set<T>, index: set<T>)
    requires followed <= before <= known && index <= known
    ensures (followed + (known - before)) * index == index - (before - followed)
  {
  }

  /** An iteration of the prospector whose batch reaches the registrar between acknowledgements of the
      publisher: what the registrar writes down names each file it follows, and no two the same. */
  method RunAndRegister(
    p: Prospector, r: R.Registrar<ProspectorInfo>, matches: seq<Match>, finishes: nat -> Option<Finish>,
    ends: ProspectorInfo -> Option<Finish>, clock: Clock,
    early: seq<R.Descriptor<ProspectorInfo>>, late: seq<R.Descriptor<ProspectorInfo>>)
    returns (canonical: map<string, R.FileState>, conflict: bool)
    requires p.Valid() && p.registrarSpool == [] && OneToOne(matches) && R.SameSources(r.state, p.saved)
    modifies p, p.prospectors, r
    ensures p.Valid() && p.registrarSpool == [] && R.SameSources(r.state, p.saved)
    ensures !conflict && canonical.Keys <= p.prospectorindex.Keys
    ensures forall f :: f in canonical ==>
      p.prospectorindex[f] in r.state && canonical[f] == r.state[p.prospectorindex[f]]
    ensures forall i :: i in r.state ==> r.state[i].source in canonical
  {
    ghost var saved := p.saved;
    ghost var state := r.state;
    var batch := p.RunOnce(matches, finishes, ends, clock);
    r.ProcessAck(early);
    r.ProcessSpool(batch);
    r.ProcessAck(late);
    AcksAround(state, saved, early, batch, late);
    canonical, conflict := r.ToCanonical();
  }

  /** A scan that finds one file. */
  method ScanOne(p: Prospector, m: Match, finishes: nat -> Option<Finish>, ends: ProspectorInfo -> Option<Finish>,
    clock: Clock)
    requires p.Valid() && p.registrarSpool == []
    modifies p, p.prospectors
    ensures p.Valid() && p.registrarSpool == [] && fresh(p.prospectors - old(p.prospectors))
    ensures m.path in p.prospectorindex && p.prospectorindex.Keys == {m.path}
    ensures p.prospectorindex[m.path].identity == m.info.identity && p.prospectorindex.Values <= p.prospectors
    ensures forall i :: i in old(p.prospectors) && i.identity == m.info.identity ==> p.prospectorindex[m.path] == i
    ensures p.saved.Keys == p.prospectorindex.Values - (old(p.prospectors) - old(p.saved.Keys))
  {
    assert [m][0] == m;
    var batch := p.RunOnce([m], finishes, ends, clock);
  }

  /** A scan that finds nothing. */
  method ScanNone(p: Prospector, finishes: nat -> Option<Finish>, ends: ProspectorInfo -> Option<Finish>, clock: Clock)
    requires p.Valid() && p.registrarSpool == []
    modifies p, p.prospectors
    ensures p.Valid() && p.registrarSpool == [] && fresh(p.prospectors - old(p.prospectors))
    ensures p.prospectorindex == map[] && p.saved == map[]
    ensures old(p.prospectorindex.Values) <= p.prospectors
    ensures forall i :: i in old(p.prospectors) && old(i.running) && ends(i).None? ==> i in p.prospectors && i.running
  {
    var batch := p.RunOnce([], finishes, ends, clock);
    assert p.prospectorindex.Values == {};
  }

  /** A file that is missing from one scan and found again by the next: it is in the index, but the
      registrar does not follow it, and what is read from it is not recorded. */
  method ReturningFile(m: Match, finishes: nat -> Option<Finish>, ends: ProspectorInfo -> Option<Finish>, clock: Clock)
    returns (p: Prospector)
    ensures fresh(p) && p.Valid() && m.path in p.prospectorindex
    ensures p.prospectorindex[m.path].identity == m.info.identity && p.saved == map[]
  {
    var r := new R.Registrar();
    p := new Prospector(None, true, r);
    ScanOne(p, m, finishes, ends, clock);
    GoAndReturn(p, m, finishes, ends, clock);
  }

  method GoAndReturn(p: Prospector, m: Match, finishes: nat -> Option<Finish>, ends: ProspectorInfo -> Option<Finish>,
    clock: Clock)
    requires p.Valid() && p.registrarSpool == [] && p.prospectorindex.Keys == {m.path}
    requires p.prospectorindex[m.path].identity == m.info.identity
    modifies p, p.prospectors
    ensures p.Valid() && m.path in p.prospectorindex && p.prospectorindex[m.path] == old(p.prospectorindex)[m.path]
    ensures p.saved == map[]
  {
    ghost var info := p.prospectorindex[m.path];
    assert info in p.prospectorindex.Values;
    ScanNone(p, finishes, ends, clock);
    ScanOne(p, m, finishes, ends, clock);
    assert p.prospectorindex.Values == {info};
    assert p.saved.Keys == {};
  }

  lemma AcksAround(state: R.Saved<ProspectorInfo>, saved: R.Saved<ProspectorInfo>,
    early: seq<R.Descriptor<ProspectorInfo>>, batch: seq<R.Event<ProspectorInfo>>,
    late: seq<R.Descriptor<ProspectorInfo>>)
    requires R.SameSources(state, saved)
    ensures R.SameSources(R.AckAll(R.ProcessAll(R.AckAll(state, early), batch), late), R.ProcessAll(saved, batch))
  {
    R.ProcessSameSources(state, saved, R.Ack(early));
    var between := R.AckAll(state, early);
    R.AcksKeepSources(between, saved, batch);
    R.AcksKeepSources(saved, saved, batch);
    R.ProcessSameSources(R.ProcessAll(between, batch), R.ProcessAll(saved, batch), R.Ack(late));
  }

  /** No two entries are the same file. */
  ghost predicate Distinct(infos: set<ProspectorInfo>) {
    forall i, j {:trigger i.identity, j.identity} :: i in infos && j in infos && i.identity == j.identity ==> i == j
  }
}
