/** Staged restore: the file operations of one boot, a power cut between any two of them, and any
    number of reboots. */
module Restore {
  import opened Wrappers
  import opened Text

  datatype FileName = Live | Wal | Shm | Pending | Incoming(token: string)

  type Content = nat

  type Disk = map<FileName, Content>

  // The live database file and the two files SQLite keeps beside it, in the order they are removed.
  const LIVE_FILES: seq<FileName> := [Live, Wal, Shm]

  datatype RestoreError = BadToken | NothingToRestore | SnapshotFailed

  // -- swapping the staged file in ---------------------------------------------------

  function Without(disk: Disk, n: nat): Disk
    requires n <= 3
  {
    disk - set i | 0 <= i < n :: LIVE_FILES[i]
  }

  function Swapped(disk: Disk): Disk
    requires Pending in disk
  {
    (Without(disk, 3) - {Pending})[Live := disk[Pending]]
  }

  /** The disk after each file operation of `apply_pending`. */
  function ApplyTrace(disk: Disk): seq<Disk> {
    if Pending !in disk then []
    else [Without(disk, 1), Without(disk, 2), Without(disk, 3), Swapped(disk)]
  }

  /** The disk when power is lost after the first `k` operations, or after all of them. */
  function AfterOps(disk: Disk, k: nat): Disk {
    var trace := ApplyTrace(disk);
    if k == 0 || trace == [] then disk
    else trace[if k <= |trace| then k - 1 else |trace| - 1]
  }

  /** `incoming-\d{8}T\d{6}Z-\d+` */
  predicate IsToken(token: string) {
    var stamp := if |token| >= 9 then token[9..] else "";
    && |token| > 26 && token[..9] == "incoming-"
    && AllDigits(stamp[..8]) && stamp[8] == 'T' && AllDigits(stamp[9..15]) && stamp[15..17] == "Z-"
    && AllDigits(stamp[17..])
  }

  /** Tokens, by their parts: a date, a time and a process number, and nothing else. */
  lemma TokenIff(token: string)
    ensures IsToken(token) <==> exists date, time, pid :: IsTokenOf(token, date, time, pid)
  {
    if IsToken(token) {
      var date, time, pid := PartsOfToken(token);
    }
    if date, time, pid :| IsTokenOf(token, date, time, pid) {
      PartsMakeToken(token, date, time, pid);
    }
  }

  predicate IsTokenOf(token: string, date: string, time: string, pid: string) {
    && |date| == 8 && |time| == 6 && pid != ""
    && (forall c | c in date || c in time || c in pid :: '0' <= c <= '9')
    && token == "incoming-" + (date + "T" + time + "Z-" + pid)
  }

  lemma PartsOfToken(token: string) returns (date: string, time: string, pid: string)
    requires IsToken(token)
    ensures IsTokenOf(token, date, time, pid)
  {
    var stamp := token[9..];
    date, time, pid := stamp[..8], stamp[9..15], stamp[17..];
    assert token == token[..9] + stamp;
    assert stamp[8..9] == "T";
    assert stamp == date + stamp[8..9] + time + stamp[15..17] + pid;
  }

  lemma PartsMakeToken(token: string, date: string, time: string, pid: string)
    requires IsTokenOf(token, date, time, pid)
    ensures IsToken(token)
  {
    var stamp := token[9..];
    assert stamp == date + "T" + time + "Z-" + pid;
    assert stamp[..8] == date && stamp[9..15] == time && stamp[17..] == pid && stamp[15..17] == "Z-";
    assert token[..9] == "incoming-";
  }

  /** What `confirm_restore` answers and leaves on disk; `snapshotOk` says whether the pre-restore
      snapshot was written. */
  function Confirm(disk: Disk, token: string, snapshotOk: bool): (Result<Content, RestoreError>, Disk) {
    if !IsToken(token) then (Err(BadToken), disk)
    else if Incoming(token) !in disk then (Err(NothingToRestore), disk)
    else if !snapshotOk then (Err(SnapshotFailed), disk)
    else (Ok(disk[Incoming(token)]), (disk - {Incoming(token)})[Pending := disk[Incoming(token)]])
  }

  class DataDir {
    var files: Disk
    // The disk after each file operation so far.
    ghost var trace: seq<Disk>

    constructor (files: Disk)
      ensures this.files == files && trace == []
    {
      this.files, trace := files, [];
    }

    method Unlink(name: FileName)
      modifies this
      ensures files == old(files) - {name} && trace == old(trace) + [files]
    {
      files := files - {name};
      trace := trace + [files];
    }

    method Move(from: FileName, to: FileName)
      requires from in files && from != to
      modifies this
      ensures files == (old(files) - {from})[to := old(files)[from]] && trace == old(trace) + [files]
    {
      var content := files[from];
      files := (files - {from})[to := content];
      trace := trace + [files];
    }

    /** Before the database opens: its files go one by one, then the staged file takes their place. */
    method ApplyPending() returns (applied: bool)
      modifies this
      ensures applied <==> Pending in old(files)
      ensures trace == old(trace) + ApplyTrace(old(files))
      ensures files == if applied then Swapped(old(files)) else old(files)
    {
      if Pending !in files {
        return false;
      }
      for i := 0 to 3
        invariant files == Without(old(files), i)
        invariant trace == old(trace) + ApplyTrace(old(files))[..i]
      {
        Unlink(LIVE_FILES[i]);
        assert files == Without(old(files), i + 1);
        assert ApplyTrace(old(files))[..i + 1] == ApplyTrace(old(files))[..i] + [files];
      }
      Move(Pending, Live);
      assert ApplyTrace(old(files)) == ApplyTrace(old(files))[..3] + [files];
      applied := true;
    }

    method ConfirmRestore(token: string, snapshotOk: bool) returns (r: Result<Content, RestoreError>)
      modifies this
      ensures r.Ok? <==> IsToken(token) && Incoming(token) in old(files) && snapshotOk
      ensures r.Ok? ==> r.value == old(files)[Incoming(token)]
      ensures r.Err? ==> r.error == if !IsToken(token) then BadToken
                                    else if Incoming(token) !in old(files) then NothingToRestore
                                    else SnapshotFailed
      ensures files == if r.Ok? then old(files)[Pending := r.value] - {Incoming(token)} else old(files)
      ensures (r, files) == Confirm(old(files), token, snapshotOk)
    {
      if !IsToken(token) {
        return Err(BadToken);
      }
      if Incoming(token) !in files {
        return Err(NothingToRestore);
      }
      if !snapshotOk {
        return Err(SnapshotFailed);
      }
      r := Ok(files[Incoming(token)]);
      Move(Incoming(token), Pending);
    }
  }

  // -- whole runs --------------------------------------------------------------------

  /** `staged` is the content most recently staged and not yet opened. */
  datatype System = System(disk: Disk, open: bool, staged: Option<Content>)

  datatype Event =
    | PowerCut(ops: nat)                            // a boot that dies after some file operations
    | Boot                                          // a boot that gets to opening the database
    | Stop                                          // the process ends, by a restart or a crash
    | Write(name: FileName, written: Option<Content>) // the open database changes one of its files
    | Upload(token: string, content: Content)
    | Discard(token: string)
    | ConfirmCall(token: string, snapshotOk: bool)

  function Step(s: System, event: Event): System {
    match event
    case PowerCut(ops) => if s.open then s else s.(disk := AfterOps(s.disk, ops))
    case Boot => if s.open then s else System(AfterOps(s.disk, 4), true, None)
    case Stop => s.(open := false)
    case Write(name, written) =>
      if !s.open || name !in LIVE_FILES then s
      else s.(disk := if written.Some? then s.disk[name := written.value] else s.disk - {name})
    case Upload(token, content) => if s.open then s.(disk := s.disk[Incoming(token) := content]) else s
    case Discard(token) => if s.open then s.(disk := s.disk - {Incoming(token)}) else s
    case ConfirmCall(token, snapshotOk) =>
      if !s.open then s
      else
        var (r, disk) := Confirm(s.disk, token, snapshotOk);
        System(disk, true, if r.Ok? then Some(r.value) else s.staged)
  }

  function Run(disk: Disk, events: seq<Event>): System {
    if events == [] then System(disk, false, None)
    else Step(Run(disk, events[..|events| - 1]), events[|events| - 1])
  }

  predicate InPlace(disk: Disk, content: Content) {
    Live in disk && disk[Live] == content && Wal !in disk && Shm !in disk
  }

  /** Staged content is the whole pending file, or it is the live file and nothing old is beside it. */
  predicate Intact(s: System) {
    match s.staged
    case None => Pending !in s.disk
    case Some(content) =>
      if Pending in s.disk then s.disk[Pending] == content else !s.open && InPlace(s.disk, content)
  }

  lemma StepKeepsIntact(s: System, event: Event)
    requires Intact(s)
    ensures Intact(Step(s, event))
  {
    if Pending in s.disk {
      SwapIsWhole(s.disk);
    }
  }

  lemma SwapIsWhole(disk: Disk)
    requires Pending in disk
    ensures Pending !in Swapped(disk) && InPlace(Swapped(disk), disk[Pending])
    ensures forall name | name !in {Live, Wal, Shm, Pending} ::
              && (name in Swapped(disk) <==> name in disk)
              && (name in disk ==> Swapped(disk)[name] == disk[name])
    ensures forall n: nat | n <= 3 :: Pending in Without(disk, n) && Without(disk, n)[Pending] == disk[Pending]
  {
    assert Wal == LIVE_FILES[1] && Shm == LIVE_FILES[2];
  }

  /** In every state of every run that starts without a pending file, with power cuts between any
      two file operations and any number of reboots, staged content is intact. */
  lemma {:induction false} StagedIsNeverLost(disk: Disk, events: seq<Event>)
    requires Pending !in disk
    ensures Intact(Run(disk, events))
  {
    if events != [] {
      StagedIsNeverLost(disk, events[..|events| - 1]);
      StepKeepsIntact(Run(disk, events[..|events| - 1]), events[|events| - 1]);
    }
  }

  /** However often boots died on the way, the boot that gets through opens exactly the content most
      recently staged, with none of the old database's files beside it and nothing left to apply. */
  lemma BootOpensStaged(disk: Disk, events: seq<Event>)
    requires Pending !in disk
    requires var s := Run(disk, events); !s.open && s.staged.Some?
    ensures var s, found := Run(disk, events), Step(Run(disk, events), Boot).disk;
            InPlace(found, s.staged.value) && Pending !in found
  {
    StagedIsNeverLost(disk, events);
    var s := Run(disk, events);
    if Pending in s.disk {
      SwapIsWhole(s.disk);
    }
  }

  /** With nothing staged, booting and dying on the way touch no file; and a refused request to
      restore touches none at any time. */
  lemma NothingStagedNothingTouched(disk: Disk, events: seq<Event>, ops: nat, token: string, snapshotOk: bool)
    requires Pending !in disk
    ensures var s := Run(disk, events);
            && (s.staged.None? ==> Step(s, PowerCut(ops)).disk == s.disk && Step(s, Boot).disk == s.disk)
            && (!Confirm(s.disk, token, snapshotOk).0.Ok? ==> Step(s, ConfirmCall(token, snapshotOk)).disk == s.disk)
            && (forall name | name in LIVE_FILES ::
                  var after := Step(s, ConfirmCall(token, snapshotOk)).disk;
                  (name in after <==> name in s.disk) && (name in s.disk ==> after[name] == s.disk[name]))
  {
    StagedIsNeverLost(disk, events);
  }

  function Cuts(ops: seq<nat>): seq<Event> {
    if ops == [] then [] else Cuts(ops[..|ops| - 1]) + [PowerCut(ops[|ops| - 1])]
  }

  lemma RunNext(disk: Disk, events: seq<Event>, e: Event)
    ensures Run(disk, events + [e]) == Step(Run(disk, events), e)
  {
    assert (events + [e])[..|events|] == events;
  }

  lemma {:induction false} CutsKeepStaged(disk: Disk, events: seq<Event>, ops: seq<nat>)
    requires !Run(disk, events).open
    ensures var s := Run(disk, events + Cuts(ops)); !s.open && s.staged == Run(disk, events).staged
  {
    hide Run;
    if ops == [] {
      assert events + [] == events;
    } else {
      var init := ops[..|ops| - 1];
      CutsKeepStaged(disk, events, init);
      RunNext(disk, events + Cuts(init), PowerCut(ops[|ops| - 1]));
      assert events + Cuts(init) + [PowerCut(ops[|ops| - 1])] == events + Cuts(ops);
    }
  }

  /** A restore goes through: in any run, what is uploaded under a token and confirmed is what the
      database opens with next, however many boots die on the way. */
  lemma RestoreGoesThrough(disk: Disk, events: seq<Event>, token: string, content: Content, ops: seq<nat>)
    requires Pending !in disk && Run(disk, events).open && IsToken(token)
    ensures var s := Run(disk, events + [Upload(token, content), ConfirmCall(token, true), Stop] + Cuts(ops) + [Boot]);
            s.open && InPlace(s.disk, content) && Pending !in s.disk
  {
    var uploaded := events + [Upload(token, content)];
    var confirmed := uploaded + [ConfirmCall(token, true)];
    var stopped := confirmed + [Stop];
    RunNext(disk, events, Upload(token, content));
    RunNext(disk, uploaded, ConfirmCall(token, true));
    RunNext(disk, confirmed, Stop);
    CutsKeepStaged(disk, stopped, ops);
    assert Run(disk, stopped).staged == Some(content);
    hide Run, IsToken;
    BootOpensStaged(disk, stopped + Cuts(ops));
    RunNext(disk, stopped + Cuts(ops), Boot);
    assert events + [Upload(token, content), ConfirmCall(token, true), Stop] == stopped;
  }
}
