/**
  The machine the crawl scheduler runs on: child processes, the two clocks, the shutdown flag and the
  crawler_run_log table. Every method is nondeterministic, so whatever is proved about a caller holds for
  every order of exits, signals, spawn failures and raised errors. The machine remembers what was done with
  it: each reading of the wall clock, each start of a child with the reading that preceded it, each start
  that failed, and how many calls raised an error.
*/
module Host {
  import opened Prelude

  // A process handle. A handle is never reused, unlike the operating system's pid.
  type Pid = nat
  // Primary key of crawler_run_log. Zero is never handed out.
  type RunId = nat

  // A scheduled crawler, by its registered name.
  datatype Provider = Provider(name: string)

  /** An attempt to start a child for the provider, made when the wall clock had been read `pass` times. */
  datatype Try = Try(provider: Provider, pass: nat)

  datatype LogStatus = LogSuccess | LogFailed | LogStopped

  datatype MachineState = MachineState(
    clock: int,                     // microseconds, monotonic
    running: bool,                  // the RUNNING flag; a signal clears it
    alive: set<Pid>,                // children that still run
    exits: map<Pid, int>,           // exit codes of the children that do not
    killed: set<Pid>,               // children the worker sent a signal to
    begun: set<RunId>,              // run-log records opened
    closed: multiset<RunId>,        // closing calls made for run-log records
    closedAs: map<RunId, LogStatus>, // what the table says of the records that were closed
    confirmed: set<RunId>,          // records whose closing call reported that it was written
    evidence: map<Pid, bool>,       // what was found out about the work of a child that ended
    wallOffset: int,                // the wall clock runs with the monotonic one, this far ahead of it
    readings: seq<int>,             // what the wall clock said each time it was read
    launched: map<Pid, Try>,        // every child ever started
    refused: set<Try>,              // every attempt that failed
    raises: nat)                    // calls that raised an error which the cycle does not catch
  {
    ghost predicate Valid() {
      alive !! exits.Keys && 0 !in begun && Remembered()
    }

    /** What the machine remembers is in order, and lies in the past. */
    ghost predicate Remembered() {
      && launched.Keys == alive + exits.Keys
      && (forall pid :: pid in launched ==> launched[pid].pass <= |readings|)
      && (forall a :: a in refused ==> a.pass <= |readings|)
      && (forall i, j :: 0 <= i < j < |readings| ==> readings[i] <= readings[j])
      && (forall i :: 0 <= i < |readings| ==> readings[i] <= wallOffset + clock)
    }
  }

  /** Neither a reading of the wall clock nor an attempt to start a child lies between. */
  ghost predicate SameMemory(m: MachineState, n: MachineState) {
    n.wallOffset == m.wallOffset && n.readings == m.readings && n.launched == m.launched && n.refused == m.refused
  }

  /** What may happen behind the worker's back between two of its own actions: time, signals and exits. */
  ghost predicate Drift(m: MachineState, n: MachineState) {
    && m.clock <= n.clock
    && (n.running ==> m.running)
    && n.alive <= m.alive
    && n.exits.Keys == m.exits.Keys + (m.alive - n.alive)
    && (forall p :: p in m.exits ==> n.exits[p] == m.exits[p])
    && SameMemory(m, n)
  }

  /** Drift, with the run log and the set of killed children as they were. */
  ghost predicate Quiet(m: MachineState, n: MachineState) {
    && Drift(m, n)
    && n.killed == m.killed && n.begun == m.begun && n.closed == m.closed && n.closedAs == m.closedAs
    && n.confirmed == m.confirmed && n.evidence == m.evidence
  }

  /** The wall clock was read and said `t`. */
  ghost predicate ReadsWall(m: MachineState, n: MachineState, t: int) {
    && Quiet(m, n.(readings := m.readings)) && n.raises == m.raises
    && n.readings == m.readings + [t] && t == n.wallOffset + n.clock
  }

  /** A closing call for the record, and nothing else. */
  ghost predicate Closing(m: MachineState, n: MachineState, id: RunId, status: LogStatus, written: bool) {
    && n == m.(closed := m.closed + multiset{id}, closedAs := n.closedAs, confirmed := n.confirmed)
    && n.confirmed == (if written then m.confirmed + {id} else m.confirmed)
    && (n.closedAs == m.closedAs[id := status] || (!written && n.closedAs == m.closedAs))
  }

  /** Attempts to start the provider failed between the two, if any. */
  ghost predicate OnlyRefused(m: MachineState, n: MachineState, p: Provider) {
    n.refused == m.refused || n.refused == m.refused + {Try(p, |m.readings|)}
  }

  class Machine {
    var s: MachineState

    /** time.monotonic(), with everything that may have happened before it is read. */
    method Now() returns (t: int)
      requires s.Valid()
      modifies this
      ensures s.Valid() && Quiet(old(s), s) && t == s.clock && s.raises == old(s).raises
    {
      var advance: int := *;
      var signalled: bool := *;
      s := s.(clock := s.clock + Max0(advance), running := s.running && !signalled);
      t := s.clock;
    }

    /** datetime.now(), as the worker's wall clock. */
    method ReadWallClock() returns (t: int)
      requires s.Valid()
      modifies this
      ensures s.Valid() && ReadsWall(old(s), s, t)
    {
      t := Now();
      t := s.wallOffset + t;
      s := s.(readings := s.readings + [t]);
    }

    /** process.poll(): None while the child runs. */
    method Poll(pid: Pid) returns (code: Option<int>)
      requires s.Valid()
      modifies this
      ensures s.Valid() && Quiet(old(s), s) && s.raises == old(s).raises
      ensures code == if pid in s.exits then Some(s.exits[pid]) else None
    {
      var exited: bool := *;
      if pid in s.alive && exited {
        var status: int := *;
        s := s.(alive := s.alive - {pid}, exits := s.exits[pid := status]);
      }
      code := if pid in s.exits then Some(s.exits[pid]) else None;
    }

    /** terminate_process_tree: not ok stands for the wait on a killed child that times out and raises. */
    method Terminate(pid: Pid) returns (ok: bool)
      requires s.Valid()
      modifies this
      ensures s.Valid() && Quiet(old(s), s.(killed := old(s).killed))
      ensures old(s).killed <= s.killed <= old(s).killed + {pid}
      ensures if ok then pid !in s.alive else pid in s.killed
      ensures s.raises == old(s).raises + (if ok then 0 else 1)
    {
      var code := Poll(pid);
      if code.Some? { return true; }
      s := s.(killed := s.killed + {pid});
      ok := *;
      if ok && pid in s.alive {
        var status: int := *;
        s := s.(alive := s.alive - {pid}, exits := s.exits[pid := status]);
      }
      if !ok { s := s.(raises := s.raises + 1); }
    }

    /** build_provider_command, which raises for a provider it does not know or cannot configure. */
    method BuildCommand(p: Provider) returns (ok: bool)
      requires s.Valid()
      modifies this
      ensures s.Valid() && s == old(s).(refused := s.refused)
      ensures s.refused == if ok then old(s).refused else old(s).refused + {Try(p, |s.readings|)}
    {
      ok := *;
      if !ok { s := s.(refused := s.refused + {Try(p, |s.readings|)}); }
    }

    /** start_crawler_run: None when the table cannot be written. */
    method OpenRun(p: Provider) returns (id: Option<RunId>)
      requires s.Valid()
      modifies this
      ensures s.Valid()
      ensures id.None? ==> s == old(s).(refused := old(s).refused + {Try(p, |s.readings|)})
      ensures id.Some? ==> id.value !in old(s).closedAs && id.value !in old(s).confirmed
      ensures id.Some? ==> id.value !in old(s).begun && s == old(s).(begun := old(s).begun + {id.value})
    {
      id := None;
      var candidate: RunId := *;
      if candidate != 0 && candidate !in s.begun && candidate !in s.closedAs && candidate !in s.confirmed {
        s := s.(begun := s.begun + {candidate});
        id := Some(candidate);
      } else {
        s := s.(refused := s.refused + {Try(p, |s.readings|)});
      }
    }

    /** finish_crawler_run, a closing call; when it reports a failure the update may or may not have been written. */
    method CloseRun(id: RunId, status: LogStatus) returns (written: bool)
      requires s.Valid()
      modifies this
      ensures s.Valid() && Closing(old(s), s, id, status, written)
    {
      written := *;
      var stored: bool := *;
      s := s.(closed := s.closed + multiset{id});
      if written || stored { s := s.(closedAs := s.closedAs[id := status]); }
      if written { s := s.(confirmed := s.confirmed + {id}); }
    }

    /** The quality report on the child's work and, for an aggregate, its manifest: is it good evidence of success? */
    method ReadEvidence(pid: Pid) returns (good: bool)
      requires s.Valid()
      modifies this
      ensures s.Valid() && Quiet(old(s), s.(evidence := old(s).evidence)) && s.raises == old(s).raises
      ensures s.evidence == old(s).evidence[pid := good]
    {
      var _ := Now();
      good := *;
      s := s.(evidence := s.evidence[pid := good]);
    }

    /** Popen: None when the process cannot be started. */
    method Spawn(p: Provider) returns (pid: Option<Pid>)
      requires s.Valid()
      modifies this
      ensures s.Valid()
      ensures pid.None? ==> s == old(s).(refused := old(s).refused + {Try(p, |s.readings|)})
      ensures pid.Some? ==>
        && pid.value !in old(s).alive + old(s).exits.Keys + old(s).killed
        && s == old(s).(alive := old(s).alive + {pid.value},
                        launched := old(s).launched[pid.value := Try(p, |s.readings|)])
    {
      pid := None;
      var candidate: Pid := *;
      if candidate !in s.alive && candidate !in s.exits && candidate !in s.killed {
        s := s.(alive := s.alive + {candidate}, launched := s.launched[candidate := Try(p, |s.readings|)]);
        pid := Some(candidate);
      } else {
        s := s.(refused := s.refused + {Try(p, |s.readings|)});
      }
    }

    /** Any other call whose only interesting result is whether it succeeded. */
    method Attempt() returns (ok: bool)
      requires s.Valid()
      modifies this
      ensures s.Valid() && Quiet(old(s), s) && s.raises == old(s).raises
    {
      var _ := Now();
      ok := *;
    }

    /** set_provider_progress writes a file, and the write may raise. */
    method WriteProgress() returns (raised: bool)
      requires s.Valid()
      modifies this
      ensures s.Valid() && Quiet(old(s), s) && s.raises == old(s).raises + (if raised then 1 else 0)
    {
      var written := Attempt();
      raised := !written;
      if raised { s := s.(raises := s.raises + 1); }
    }

    /** interruptible_sleep: sleeps in short slices and gives up when the worker is told to stop. */
    method InterruptibleSleep(duration: int, slice: int)
      requires s.Valid() && 0 < slice
      modifies this
      ensures s.Valid() && Quiet(old(s), s) && s.raises == old(s).raises
      ensures s.running ==> old(s).clock + duration <= s.clock
    {
      var deadline := s.clock + Max0(duration);
      while s.running
        invariant s.Valid() && Quiet(old(s), s) && s.raises == old(s).raises
        decreases Max0(deadline - s.clock), s.running
      {
        var now := Now();
        if deadline <= now { return; }
        // time.sleep never returns early
        s := s.(clock := s.clock + if deadline - now < slice then deadline - now else slice);
      }
    }
  }
}
