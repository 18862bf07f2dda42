/** The shutdown protocol between one API server and any number of `api stop` clients.

    The server and the clients share one control file per server instance. Every
    step below is one atomic file operation, so all interleavings are covered;
    in particular the check and the write of `request_stop` are two steps. */
module StopProtocol {
  import opened Options

  type Instance = string
  type Pid = int

  /** A control record that names its own instance; anything else reads as `Unreadable`. */
  datatype Content = Stop(pid: Pid) | Stopped(pid: Pid) | Unreadable

  // ----- the control file of one instance, used without interruption

  function AfterRequest(record: Option<Content>, pid: Pid): Option<Content> {
    if record == Some(Stopped(pid)) then record else Some(Stop(pid))
  }

  class ProcessControl {
    var record: Option<Content>

    constructor ()
      ensures record == None
    {
      record := None;
    }

    method IsStopped(pid: Pid) returns (stopped: bool)
      ensures stopped <==> record == Some(Stopped(pid))
    {
      stopped := record == Some(Stopped(pid));
    }

    method RequestStop(pid: Pid)
      modifies this
      ensures record == AfterRequest(old(record), pid)
      ensures record == if old(record) == Some(Stopped(pid)) then old(record) else Some(Stop(pid))
    {
      var stopped := IsStopped(pid);
      if !stopped {
        record := Some(Stop(pid));
      }
    }

    method StopRequested(pid: Pid) returns (requested: bool)
      ensures requested <==> record == Some(Stop(pid))
    {
      requested := record == Some(Stop(pid));
    }

    method AcknowledgeStop(pid: Pid)
      modifies this
      ensures record == Some(Stopped(pid))
    {
      record := Some(Stopped(pid));
    }
  }

  // ----- the concurrent system

  datatype ServerPc = Serving | Leaving | Closed | Exited

  datatype Server = Server(instance: Instance, pid: Pid, pc: ServerPc, stopRequested: bool, acknowledged: bool)

  datatype ClientPc = Check | Write | Poll | Compare | Remove | Unlink | Succeeded | Failed

  /** `wrote` and `checkedAfterAck` are history: whether the client has written a
      request, and whether its check came after the server's acknowledgement. */
  datatype Client = Client(record: ApiRecord, pc: ClientPc, wrote: bool, checkedAfterAck: bool)

  /** The contents of `api.pid`. */
  datatype ApiRecord = ApiRecord(pid: Pid, instance: Instance)

  datatype StatusPc = Look | CompareOld | RemoveOld | Done

  /** A call of `api_status`, as every start and status command makes one: the record it read. */
  datatype StatusCall = StatusCall(seen: Option<ApiRecord>, pc: StatusPc)

  datatype System = System(files: map<Instance, Content>, pidFile: Option<ApiRecord>,
                           server: Server, clients: seq<Client>, statuses: seq<StatusCall>)

  function Read(s: System, instance: Instance): Option<Content> {
    if instance in s.files then Some(s.files[instance]) else None
  }

  predicate Listening(server: Server) {
    server.pc == Serving || server.pc == Leaving
  }

  /** The client has seen the acknowledgement and will return success. */
  predicate ReportsSuccess(c: Client) {
    c.pc == Compare || c.pc == Remove || c.pc == Unlink || c.pc == Succeeded
  }

  predicate Targets(c: Client, server: Server) {
    c.record == ApiRecord(server.pid, server.instance)
  }

  ghost predicate Init(s: System) {
    && s.server.pc == Serving && !s.server.stopRequested && !s.server.acknowledged
    && s.server.instance !in s.files
    && (forall c :: c in s.clients ==> c.pc == Check && !c.wrote && !c.checkedAfterAck)
    && (forall j :: 0 <= j < |s.statuses| ==> s.statuses[j].pc == Look)
  }

  // One step of `service_actions`: see a request, and start the shutdown thread.
  predicate SeeRequest(s: System, s': System) {
    && s.server.pc == Serving && !s.server.stopRequested
    && Read(s, s.server.instance) == Some(Stop(s.server.pid))
    && s' == s.(server := s.server.(stopRequested := true))
  }

  // `serve_forever` returns, because of the shutdown or for any other reason.
  predicate LeaveLoop(s: System, s': System) {
    s.server.pc == Serving && s' == s.(server := s.server.(pc := Leaving))
  }

  predicate CloseListener(s: System, s': System) {
    s.server.pc == Leaving && s' == s.(server := s.server.(pc := Closed))
  }

  predicate ExitServer(s: System, s': System) {
    && s.server.pc == Closed
    && s' == if s.server.stopRequested
             then s.(files := s.files[s.server.instance := Stopped(s.server.pid)],
                     server := s.server.(pc := Exited, acknowledged := true))
             else s.(server := s.server.(pc := Exited))
  }

  function SetClient(s: System, i: nat, c: Client): System
    requires i < |s.clients|
  {
    s.(clients := s.clients[i := c])
  }

  predicate CheckStopped(s: System, i: nat, s': System)
    requires i < |s.clients|
  {
    var c := s.clients[i];
    && c.pc == Check
    && s' == SetClient(s, i, c.(
               pc := if Read(s, c.record.instance) == Some(Stopped(c.record.pid)) then Poll else Write,
               checkedAfterAck := s.server.acknowledged))
  }

  predicate WriteRequest(s: System, i: nat, s': System)
    requires i < |s.clients|
  {
    var c := s.clients[i];
    && c.pc == Write
    && (s' == SetClient(s, i, c.(pc := Poll, wrote := true)).(
                files := s.files[c.record.instance := Stop(c.record.pid)])
        || s' == SetClient(s, i, c.(pc := Failed)))
  }

  // Seeing the acknowledgement ends the loop; otherwise sleep, or give up at the deadline.
  predicate PollStopped(s: System, i: nat, s': System)
    requires i < |s.clients|
  {
    var c := s.clients[i];
    && c.pc == Poll
    && if Read(s, c.record.instance) == Some(Stopped(c.record.pid)) then s' == SetClient(s, i, c.(pc := Compare))
       else s' == s || s' == SetClient(s, i, c.(pc := Failed))
  }

  // `_remove_api_record` reads and compares, and only then unlinks.
  predicate CompareRecord(s: System, i: nat, s': System)
    requires i < |s.clients|
  {
    var c := s.clients[i];
    && c.pc == Compare
    && (s' == SetClient(s, i, c.(pc := if s.pidFile == Some(c.record) then Remove
                                       else if s.pidFile == None then Unlink else Succeeded))
        || s' == SetClient(s, i, c.(pc := Succeeded)))
  }

  predicate RemoveRecord(s: System, i: nat, s': System)
    requires i < |s.clients|
  {
    var c := s.clients[i];
    && c.pc == Remove
    && (s' == SetClient(s, i, c.(pc := Unlink)).(pidFile := None)
        || s' == SetClient(s, i, c.(pc := Succeeded)))
  }

  predicate UnlinkControl(s: System, i: nat, s': System)
    requires i < |s.clients|
  {
    var c := s.clients[i];
    && c.pc == Unlink
    && (s' == SetClient(s, i, c.(pc := Succeeded)).(files := s.files - {c.record.instance})
        || s' == SetClient(s, i, c.(pc := Succeeded)))
  }

  predicate ClientStep(s: System, i: nat, s': System) {
    && i < |s.clients|
    && (CheckStopped(s, i, s') || WriteRequest(s, i, s') || PollStopped(s, i, s') ||
        CompareRecord(s, i, s') || RemoveRecord(s, i, s') || UnlinkControl(s, i, s'))
  }

  function SetStatus(s: System, j: nat, c: StatusCall): System
    requires j < |s.statuses|
  {
    s.(statuses := s.statuses[j := c])
  }

  // Reads the record and judges its process; not finding it running, it goes on to remove the record.
  predicate LookUp(s: System, j: nat, s': System)
    requires j < |s.statuses|
  {
    && s.statuses[j].pc == Look
    && (s' == SetStatus(s, j, StatusCall(s.pidFile, Done)) || s' == SetStatus(s, j, StatusCall(s.pidFile, CompareOld)))
  }

  predicate CompareOldRecord(s: System, j: nat, s': System)
    requires j < |s.statuses|
  {
    var c := s.statuses[j];
    && c.pc == CompareOld
    && (s' == SetStatus(s, j, c.(pc := if c.seen.Some? && s.pidFile == c.seen then RemoveOld else Done))
        || s' == SetStatus(s, j, c.(pc := Done)))
  }

  predicate RemoveOldRecord(s: System, j: nat, s': System)
    requires j < |s.statuses|
  {
    var c := s.statuses[j];
    && c.pc == RemoveOld
    && (s' == SetStatus(s, j, c.(pc := Done)).(pidFile := None) || s' == SetStatus(s, j, c.(pc := Done)))
  }

  predicate StatusStep(s: System, j: nat, s': System) {
    && j < |s.statuses|
    && (LookUp(s, j, s') || CompareOldRecord(s, j, s') || RemoveOldRecord(s, j, s'))
  }

  predicate ServerStep(s: System, s': System) {
    SeeRequest(s, s') || LeaveLoop(s, s') || CloseListener(s, s') || ExitServer(s, s')
  }

  // Other instances own other files, and a new start may write the API record.
  predicate OthersStep(s: System, s': System) {
    && s' == s.(files := s'.files, pidFile := s'.pidFile)
    && Read(s', s.server.instance) == Read(s, s.server.instance)
    && (s'.pidFile == s.pidFile || s'.pidFile.Some?)
  }

  ghost predicate Next(s: System, s': System) {
    || ServerStep(s, s') || OthersStep(s, s')
    || (exists i :: ClientStep(s, i, s'))
    || (exists j :: StatusStep(s, j, s'))
  }

  ghost predicate Run(run: seq<System>) {
    && run != [] && Init(run[0])
    && forall k :: 0 <= k < |run| - 1 ==> Next(run[k], run[k + 1])
  }

  // ----- safety

  ghost predicate Inv(s: System) {
    && FileInv(s.server, Read(s, s.server.instance))
    && (s.server.stopRequested || Read(s, s.server.instance) == Some(Stop(s.server.pid)) ==> Requested(s))
    && forall j :: 0 <= j < |s.clients| ==> ClientInv(s.server, Read(s, s.server.instance), s.clients[j])
  }

  // An acknowledgement, and hence a "stopped" record, exists only after the close.
  ghost predicate FileInv(server: Server, file: Option<Content>) {
    && (server.acknowledged ==> server.pc == Exited && server.stopRequested)
    && forall p :: file == Some(Stopped(p)) ==> server.acknowledged && p == server.pid
  }

  // Some client asked for this instance and this pid.
  ghost predicate Requested(s: System) {
    exists j :: 0 <= j < |s.clients| && s.clients[j].wrote && Targets(s.clients[j], s.server)
  }

  // Success is reported only after the acknowledgement, and a check made after the
  // acknowledgement leads to a write only once the acknowledgement is gone.
  ghost predicate ClientInv(server: Server, file: Option<Content>, c: Client) {
    && (ReportsSuccess(c) && c.record.instance == server.instance ==> Targets(c, server) && server.acknowledged)
    && (c.checkedAfterAck && c.pc == Write && Targets(c, server) ==> file != Some(Stopped(server.pid)))
    && (c.checkedAfterAck ==> server.acknowledged)
  }

  lemma RequestedAfter(s: System, i: nat, c: Client, s': System)
    requires i < |s.clients| && c.record == s.clients[i].record && (s.clients[i].wrote ==> c.wrote)
    requires s'.clients == s.clients[i := c] && s'.server == s.server
    ensures Requested(s) || (c.wrote && Targets(c, s.server)) ==> Requested(s')
  {
    if Requested(s) {
      var j :| 0 <= j < |s.clients| && s.clients[j].wrote && Targets(s.clients[j], s.server);
      assert s'.clients[j].wrote && Targets(s'.clients[j], s'.server);
    } else if c.wrote && Targets(c, s.server) {
      assert s'.clients[i].wrote && Targets(s'.clients[i], s'.server);
    }
  }

  lemma ServerKeepsInv(s: System, s': System)
    requires Inv(s) && ServerStep(s, s')
    ensures Inv(s')
  {
    if Requested(s) {
      var j :| 0 <= j < |s.clients| && s.clients[j].wrote && Targets(s.clients[j], s.server);
      assert s'.clients[j].wrote && Targets(s'.clients[j], s'.server);
    }
  }

  lemma ClientKeepsInv(s: System, i: nat, s': System)
    requires Inv(s) && ClientStep(s, i, s')
    ensures Inv(s')
  {
    var c := s.clients[i];
    assert ClientInv(s.server, Read(s, s.server.instance), c);
    ClientStepFrame(s, i, s');
    ClientStepLocal(s, i, s');
    hide ClientStep, Requested;
    RequestedAfter(s, i, s'.clients[i], s');
  }

  // What one client step does to the file of this server's instance and to its own client.
  lemma ClientStepLocal(s: System, i: nat, s': System)
    requires FileInv(s.server, Read(s, s.server.instance)) && ClientStep(s, i, s')
    requires ClientInv(s.server, Read(s, s.server.instance), s.clients[i])
    ensures s'.server == s.server && i < |s'.clients|
    ensures var file, file' := Read(s, s.server.instance), Read(s', s.server.instance);
            && ClientInv(s.server, file', s'.clients[i])
            && (file' == file || file' == None || file' == Some(Stop(s.clients[i].record.pid)))
            && (file' != file && file' == Some(Stop(s.server.pid)) ==>
                  s'.clients[i].wrote && Targets(s'.clients[i], s.server))
  {
    ClientStepFrame(s, i, s');
    if WriteRequest(s, i, s') || UnlinkControl(s, i, s') {
    } else {
      assert s'.files == s.files;
    }
  }

  lemma StepKeepsInv(s: System, s': System)
    requires Inv(s) && Next(s, s')
    ensures Inv(s')
  {
    if ServerStep(s, s') {
      ServerKeepsInv(s, s');
    } else if OthersStep(s, s') {
      if Requested(s) {
        var j :| 0 <= j < |s.clients| && s.clients[j].wrote && Targets(s.clients[j], s.server);
        assert s'.clients[j].wrote && Targets(s'.clients[j], s'.server);
      }
    } else if i :| ClientStep(s, i, s') {
      ClientKeepsInv(s, i, s');
    } else {
      var j :| StatusStep(s, j, s');
      StatusStepFrame(s, j, s');
      assert Requested(s') <==> Requested(s);
    }
  }

  lemma StatusStepFrame(s: System, j: nat, s': System)
    requires StatusStep(s, j, s')
    ensures s' == s.(pidFile := s'.pidFile, statuses := s'.statuses)
  {
  }

  lemma {:induction false} RunKeepsInv(run: seq<System>, k: nat)
    requires Run(run) && k < |run|
    ensures Inv(run[k])
  {
    if k > 0 {
      RunKeepsInv(run, k - 1);
      StepKeepsInv(run[k - 1], run[k]);
    }
  }

  lemma ClientStepFrame(s: System, i: nat, s': System)
    requires ClientStep(s, i, s')
    ensures s'.server == s.server && i < |s'.clients| && s'.clients == s.clients[i := s'.clients[i]]
    ensures s'.clients[i].record == s.clients[i].record
    ensures s.clients[i].wrote ==> s'.clients[i].wrote
  {
  }

  lemma StepKeepsIdentity(s: System, s': System)
    requires Next(s, s')
    ensures s'.server.instance == s.server.instance && s'.server.pid == s.server.pid
    ensures |s'.clients| == |s.clients|
    ensures forall i :: 0 <= i < |s.clients| ==> s'.clients[i].record == s.clients[i].record
  {
    if i: nat :| ClientStep(s, i, s') {
      ClientStepFrame(s, i, s');
    } else if j: nat :| StatusStep(s, j, s') {
      StatusStepFrame(s, j, s');
    }
  }

  lemma {:induction false} RunKeepsIdentity(run: seq<System>, k: nat)
    requires Run(run) && k < |run|
    ensures run[k].server.instance == run[0].server.instance && run[k].server.pid == run[0].server.pid
    ensures |run[k].clients| == |run[0].clients|
    ensures forall i :: 0 <= i < |run[k].clients| ==> run[k].clients[i].record == run[0].clients[i].record
  {
    hide Next, Init;
    if k > 0 {
      RunKeepsIdentity(run, k - 1);
      StepKeepsIdentity(run[k - 1], run[k]);
    }
  }

  /** In every run a client that reports success for this server's instance named its
      pid, and by then the server has been asked, has closed its listener and has exited. */
  lemma SuccessMeansClosed(run: seq<System>, k: nat, c: Client)
    requires Run(run) && k < |run|
    requires c in run[k].clients && c.record.instance == run[k].server.instance && ReportsSuccess(c)
    ensures var server := run[k].server;
            !Listening(server) && server.pc == Exited && server.acknowledged && Targets(c, server)
  {
    RunKeepsInv(run, k);
  }

  /** A "stopped" record for this instance is the server's own, written after the close. */
  lemma StoppedMeansClosed(run: seq<System>, k: nat, pid: Pid)
    requires Run(run) && k < |run|
    requires Read(run[k], run[k].server.instance) == Some(Stopped(pid))
    ensures pid == run[k].server.pid && !Listening(run[k].server)
  {
    RunKeepsInv(run, k);
  }

  /** Clients of other instances or other pids, however many, never stop this server. */
  lemma OnlyOwnRequestsStop(run: seq<System>, k: nat)
    requires Run(run) && k < |run|
    requires forall c :: c in run[0].clients ==> !Targets(c, run[0].server)
    ensures !run[k].server.stopRequested && !run[k].server.acknowledged
  {
    hide Next;
    RunKeepsInv(run, k);
    RunKeepsIdentity(run, k);
    forall j | 0 <= j < |run[k].clients| ensures !Targets(run[k].clients[j], run[k].server) {
      assert run[0].clients[j] in run[0].clients;
    }
  }

  /** A write that destroys the acknowledgement comes from a client that checked before
      the acknowledgement, or that names another pid. */
  lemma OverwriteIsStale(run: seq<System>, k: nat, i: nat)
    requires Run(run) && k + 1 < |run| && i < |run[k].clients|
    requires WriteRequest(run[k], i, run[k + 1])
    requires run[k].clients[i].record.instance == run[k].server.instance
    requires Read(run[k], run[k].server.instance) == Some(Stopped(run[k].server.pid))
    ensures !run[k].clients[i].checkedAfterAck || !Targets(run[k].clients[i], run[k].server)
  {
    RunKeepsInv(run, k);
    assert run[k].clients[i] in run[k].clients;
  }

  // ----- when the acknowledgement survives, and when it is lost

  /** The acknowledgement is in the file. */
  predicate Acknowledged(s: System) {
    Read(s, s.server.instance) == Some(Stopped(s.server.pid))
  }

  /** No client of this instance stands between its check and its write, and none that is still to check
      names another pid. */
  ghost predicate Safe(s: System) {
    forall j :: 0 <= j < |s.clients| && s.clients[j].record.instance == s.server.instance ==>
      s.clients[j].pc != Write && (s.clients[j].pc == Check ==> Targets(s.clients[j], s.server))
  }

  // The clean-up of a client of this instance that saw the acknowledgement.
  ghost predicate OwnUnlink(s: System, s': System) {
    exists i :: 0 <= i < |s.clients| && s.clients[i].record.instance == s.server.instance && UnlinkControl(s, i, s')
  }

  /** Any steps of anyone, but for that clean-up. */
  ghost predicate Undisturbed(run: seq<System>) {
    && run != []
    && forall k :: 0 <= k < |run| - 1 ==> Next(run[k], run[k + 1]) && !OwnUnlink(run[k], run[k + 1])
  }

  lemma SafeClientStep(s: System, i: nat, s': System)
    requires Acknowledged(s) && Safe(s) && ClientStep(s, i, s') && !OwnUnlink(s, s')
    ensures Acknowledged(s') && Safe(s')
  {
    ClientStepFrame(s, i, s');
    var c := s.clients[i];
    if c.record.instance == s.server.instance {
      assert c.pc != Write && !UnlinkControl(s, i, s');
      assert s'.files == s.files;
    } else {
      assert Read(s', s.server.instance) == Read(s, s.server.instance);
    }
  }

  lemma SafeSurvives(s: System, s': System)
    requires Acknowledged(s) && Safe(s) && Next(s, s') && !OwnUnlink(s, s')
    ensures Acknowledged(s') && Safe(s')
  {
    if i: nat :| ClientStep(s, i, s') {
      SafeClientStep(s, i, s');
    } else if j: nat :| StatusStep(s, j, s') {
      StatusStepFrame(s, j, s');
    } else {
      assert s'.clients == s.clients && s'.server.instance == s.server.instance && s'.server.pid == s.server.pid;
    }
  }

  lemma {:induction false} SafeRun(run: seq<System>, k: nat)
    requires Undisturbed(run) && Acknowledged(run[0]) && Safe(run[0]) && k < |run|
    ensures Acknowledged(run[k]) && Safe(run[k])
  {
    hide Next, OwnUnlink, Acknowledged, Safe;
    if k > 0 {
      SafeRun(run, k - 1);
      SafeSurvives(run[k - 1], run[k - 1 + 1]);
    }
  }

  // The client's write puts a request in the place of the acknowledgement.
  function Written(s: System, i: nat): System
    requires i < |s.clients|
  {
    var c := s.clients[i];
    SetClient(s, i, c.(pc := Poll, wrote := true)).(files := s.files[c.record.instance := Stop(c.record.pid)])
  }

  lemma WriteDestroys(s: System, i: nat)
    requires i < |s.clients| && s.clients[i].pc == Write && s.clients[i].record.instance == s.server.instance
    ensures Next(s, Written(s, i)) && !OwnUnlink(s, Written(s, i)) && !Acknowledged(Written(s, i))
  {
    var s' := Written(s, i);
    assert WriteRequest(s, i, s');
    assert ClientStep(s, i, s');
    NoUnlink(s, i, s');
  }

  // A step that moves a client that is not about to unlink is nobody's clean-up.
  lemma NoUnlink(s: System, i: nat, s': System)
    requires i < |s.clients| && |s'.clients| == |s.clients| && s.clients[i].pc != Unlink && s'.clients[i] != s.clients[i]
    ensures !OwnUnlink(s, s')
  {
  }

  lemma CheckLeadsToWrite(s: System, i: nat) returns (s': System)
    requires i < |s.clients| && s.clients[i].pc == Check && s.clients[i].record.instance == s.server.instance
    requires Acknowledged(s) && !Targets(s.clients[i], s.server)
    ensures Next(s, s') && !OwnUnlink(s, s') && |s'.clients| == |s.clients| && s'.server == s.server
    ensures s'.clients[i].pc == Write && s'.clients[i].record.instance == s.server.instance
  {
    var c := s.clients[i];
    s' := SetClient(s, i, c.(pc := Write, checkedAfterAck := s.server.acknowledged));
    assert Read(s, c.record.instance) != Some(Stopped(c.record.pid));
    assert CheckStopped(s, i, s');
    assert ClientStep(s, i, s');
    NoUnlink(s, i, s');
  }

  /** From an acknowledged state that is not safe one or two steps of one client destroy the acknowledgement. */
  lemma UnsafeLoses(s: System) returns (run: seq<System>)
    requires Acknowledged(s) && !Safe(s)
    ensures Undisturbed(run) && run[0] == s && !Acknowledged(run[|run| - 1])
  {
    hide Next, OwnUnlink;
    var i :| 0 <= i < |s.clients| && s.clients[i].record.instance == s.server.instance &&
      (s.clients[i].pc == Write || (s.clients[i].pc == Check && !Targets(s.clients[i], s.server)));
    if s.clients[i].pc == Write {
      WriteDestroys(s, i);
      UndisturbedStep([s], Written(s, i));
      run := [s] + [Written(s, i)];
    } else {
      hide Acknowledged, Written;
      var mid := CheckLeadsToWrite(s, i);
      WriteDestroys(mid, i);
      UndisturbedStep([s], mid);
      UndisturbedStep([s] + [mid], Written(mid, i));
      run := [s] + [mid] + [Written(mid, i)];
    }
  }

  lemma UndisturbedStep(run: seq<System>, s: System)
    requires Undisturbed(run) && Next(run[|run| - 1], s) && !OwnUnlink(run[|run| - 1], s)
    ensures Undisturbed(run + [s])
  {
    hide Next, OwnUnlink;
    var longer := run + [s];
    forall k | 0 <= k < |longer| - 1 ensures Next(longer[k], longer[k + 1]) && !OwnUnlink(longer[k], longer[k + 1]) {
      if k < |run| - 1 { assert longer[k + 1] == run[k + 1]; }
    }
  }

  /** The acknowledgement stays, whatever anyone does short of the clean-up of a client that saw it, if
      and only if the state is safe. */
  lemma AcknowledgementSurvives(s: System)
    requires Acknowledged(s)
    ensures Safe(s) <==> forall run :: Undisturbed(run) && run[0] == s ==> Acknowledged(run[|run| - 1])
  {
    hide Next, OwnUnlink, Acknowledged, Safe;
    if Safe(s) {
      forall run | Undisturbed(run) && run[0] == s ensures Acknowledged(run[|run| - 1]) { SafeToTheEnd(run); }
    } else {
      var run := UnsafeLoses(s);
    }
  }

  lemma SafeToTheEnd(run: seq<System>)
    requires Undisturbed(run) && Acknowledged(run[0]) && Safe(run[0])
    ensures Acknowledged(run[|run| - 1])
  {
    SafeRun(run, |run| - 1);
  }

  /** While it is there, every client of this instance and pid that checks or polls sees it. */
  lemma AcknowledgementIsSeen(s: System, i: nat, s': System)
    requires Acknowledged(s) && ClientStep(s, i, s') && Targets(s.clients[i], s.server)
    ensures s.clients[i].pc == Check ==> s'.clients[i].pc == Poll
    ensures s.clients[i].pc == Poll ==> ReportsSuccess(s'.clients[i])
  {
  }

  /** The server is gone and its acknowledgement is not in the file. */
  ghost predicate Lost(s: System) {
    s.server.pc == Exited && forall p :: Read(s, s.server.instance) != Some(Stopped(p))
  }

  /** A lost acknowledgement never comes back: no further client of this instance succeeds. */
  lemma LostForever(s: System, s': System, j: nat)
    requires Lost(s) && Next(s, s')
    requires j < |s.clients| && s.clients[j].record.instance == s.server.instance && !ReportsSuccess(s.clients[j])
    ensures Lost(s') && s'.server == s.server
    ensures j < |s'.clients| && s'.clients[j].record == s.clients[j].record && !ReportsSuccess(s'.clients[j])
  {
    if i: nat :| ClientStep(s, i, s') {
      LostStep(s, i, s', j);
    }
  }

  lemma LostStep(s: System, i: nat, s': System, j: nat)
    requires Lost(s) && ClientStep(s, i, s')
    requires j < |s.clients| && s.clients[j].record.instance == s.server.instance && !ReportsSuccess(s.clients[j])
    ensures Lost(s') && s'.server == s.server
    ensures j < |s'.clients| && s'.clients[j].record == s.clients[j].record && !ReportsSuccess(s'.clients[j])
  {
    ClientStepFrame(s, i, s');
  }

  /** So in every run, once it is lost every client that has not yet seen it fails or waits. */
  lemma {:induction false} LostRun(run: seq<System>, k: nat, m: nat, j: nat)
    requires Run(run) && k <= m < |run| && Lost(run[k])
    requires j < |run[k].clients| && run[k].clients[j].record.instance == run[k].server.instance
    requires !ReportsSuccess(run[k].clients[j])
    ensures Lost(run[m]) && run[m].server == run[k].server
    ensures j < |run[m].clients| && run[m].clients[j].record == run[k].clients[j].record
    ensures !ReportsSuccess(run[m].clients[j])
    decreases m
  {
    hide Next, Init;
    if k < m {
      LostRun(run, k, m - 1, j);
      LostForever(run[m - 1], run[m], j);
    }
  }

  /** The two steps of `request_stop`, when nothing comes between them, are the
      uninterrupted operation on the control file. */
  lemma UninterruptedRequest(s: System, i: nat, mid: System, s': System)
    requires i < |s.clients| && CheckStopped(s, i, mid)
    requires if mid.clients[i].pc == Write then WriteRequest(mid, i, s') && s'.clients[i].pc == Poll else s' == mid
    ensures Read(s', s.clients[i].record.instance) ==
            AfterRequest(Read(s, s.clients[i].record.instance), s.clients[i].record.pid)
  {
  }

  // ----- histories in pieces

  ghost predicate Steps(run: seq<System>) {
    run != [] && forall k :: 0 <= k < |run| - 1 ==> Next(run[k], run[k + 1])
  }

  lemma Joined(a: seq<System>, b: seq<System>)
    requires Steps(a) && Steps(b) && a[|a| - 1] == b[0]
    ensures Steps(a + b[1..])
  {
    hide Next;
    var run := a + b[1..];
    forall k | 0 <= k < |run| - 1 ensures Next(run[k], run[k + 1]) {
      if k >= |a| - 1 {
        var m := k - (|a| - 1);
        assert run[k] == b[m] && run[k + 1] == b[m + 1];
      }
    }
  }

  lemma ClientMoves(s: System, i: nat, s': System)
    requires ClientStep(s, i, s')
    ensures Steps([s, s'])
  {
    assert Next(s, s');
    hide Next;
  }

  /** A running server sees its request, leaves its loop, closes the listener, acknowledges and exits. */
  lemma Shutdown(s: System) returns (run: seq<System>)
    requires s.server.pc == Serving && !s.server.stopRequested && Read(s, s.server.instance) == Some(Stop(s.server.pid))
    ensures Steps(run) && |run| == 5 && run[0] == s
    ensures run[4] == s.(files := s.files[s.server.instance := Stopped(s.server.pid)],
                         server := s.server.(pc := Exited, stopRequested := true, acknowledged := true))
  {
    var s1 := s.(server := s.server.(stopRequested := true));
    var s2 := s1.(server := s1.server.(pc := Leaving));
    var s3 := s2.(server := s2.server.(pc := Closed));
    var s4 := s3.(files := s3.files[s.server.instance := Stopped(s.server.pid)],
                  server := s3.server.(pc := Exited, acknowledged := true));
    assert SeeRequest(s, s1) && LeaveLoop(s1, s2) && CloseListener(s2, s3) && ExitServer(s3, s4);
    hide SeeRequest, LeaveLoop, CloseListener, ExitServer, OthersStep, ClientStep, StatusStep;
    assert Next(s, s1) && Next(s1, s2) && Next(s2, s3) && Next(s3, s4);
    hide Next;
    run := [s, s1, s2, s3, s4];
  }

  /** The check and the write are not atomic, and it matters: two clients that both
      check first can end with the server stopped, the acknowledgement overwritten,
      and the second client never told. */
  lemma RaceLosesAcknowledgement() returns (run: seq<System>)
    ensures Run(run) && Lost(run[|run| - 1])
    ensures var s := run[|run| - 1];
            s.server.acknowledged && |s.clients| == 2 &&
            forall c :: c in s.clients ==> Targets(c, s.server) && c.pc == Poll
  {
    var r := ApiRecord(7, "a");
    var arriving := Client(r, Check, false, false);
    var checked := arriving.(pc := Write);
    var waiting := arriving.(pc := Poll, wrote := true);
    var s0 := System(map[], Some(r), Server("a", 7, Serving, false, false), [arriving, arriving], []);
    var s1 := s0.(clients := [checked, arriving]);
    var s2 := s1.(clients := [checked, checked]);
    var s3 := s2.(clients := [waiting, checked], files := map["a" := Stop(7)]);
    var stop := Shutdown(s3);
    var s8 := stop[4].(clients := [waiting, waiting], files := stop[4].files["a" := Stop(7)]);
    assert CheckStopped(s0, 0, s1) && CheckStopped(s1, 1, s2) && WriteRequest(s2, 0, s3) && WriteRequest(stop[4], 1, s8);
    assert Init(s0) && Lost(s8);
    hide CheckStopped, WriteRequest, Next, Init, Lost;
    ClientMoves(s0, 0, s1);
    ClientMoves(s1, 1, s2);
    ClientMoves(s2, 0, s3);
    ClientMoves(stop[4], 1, s8);
    hide ClientStep, Steps;
    run := Concatenated([[s0, s1], [s1, s2], [s2, s3], stop, [stop[4], s8]]);
    StepsRun(run);
  }

  lemma StepsRun(run: seq<System>)
    requires Steps(run) && Init(run[0])
    ensures Run(run)
  {
  }

  /** Pieces that fit together are one history. */
  lemma {:induction false} Concatenated(pieces: seq<seq<System>>) returns (run: seq<System>)
    requires pieces != [] && forall i :: 0 <= i < |pieces| ==> pieces[i] != [] && Steps(pieces[i])
    requires forall i :: 0 <= i < |pieces| - 1 ==> Fits(pieces[i], pieces[i + 1])
    ensures Steps(run) && run[0] == pieces[0][0]
    ensures var last := pieces[|pieces| - 1]; run[|run| - 1] == last[|last| - 1]
  {
    hide Next;
    if |pieces| == 1 {
      run := pieces[0];
    } else {
      var n := |pieces| - 1;
      var front := Concatenated(pieces[..n]);
      assert Fits(pieces[n - 1], pieces[n - 1 + 1]);
      Joined(front, pieces[n]);
      run := front + pieces[n][1..];
    }
  }

  ghost predicate Fits(a: seq<System>, b: seq<System>) {
    a != [] && b != [] && a[|a| - 1] == b[0]
  }

  // ----- the API record

  /** The API record disappears only by the hand of a stop client that saw the acknowledgement, or of a
      status call that did not find its process running; each compared the record before. */
  lemma RecordKept(s: System, s': System)
    requires Next(s, s') && s.pidFile.Some? && s'.pidFile == None
    ensures || (exists i :: 0 <= i < |s.clients| && s.clients[i].pc == Remove && ReportsSuccess(s.clients[i]) && RemoveRecord(s, i, s'))
            || (exists j :: 0 <= j < |s.statuses| && s.statuses[j].pc == RemoveOld && RemoveOldRecord(s, j, s'))
  {
    if i: nat :| ClientStep(s, i, s') {
      assert RemoveRecord(s, i, s');
    } else {
      var j: nat :| StatusStep(s, j, s');
      assert RemoveOldRecord(s, j, s');
    }
  }

  /** A client writes and unlinks no control file but that of its own record, and the server only its own. */
  lemma FilesAreOwn(s: System, s': System, i: nat)
    ensures ClientStep(s, i, s') ==> forall f :: f != s.clients[i].record.instance ==> Read(s', f) == Read(s, f)
    ensures ServerStep(s, s') ==> forall f :: f != s.server.instance ==> Read(s', f) == Read(s, f)
  {
  }

  lemma ClientComesToRemove(s: System, i: nat, s': System)
    requires ClientStep(s, i, s')
    ensures s'.statuses == s.statuses
    ensures i < |s.clients| && i < |s'.clients| && forall k :: 0 <= k < |s.clients| && k != i ==> k < |s'.clients| && s'.clients[k] == s.clients[k]
    ensures s'.clients[i].pc == Remove && s.clients[i].pc != Remove ==> s.pidFile == Some(s.clients[i].record) && ReportsSuccess(s.clients[i])
  {
  }

  lemma StatusComesToRemove(s: System, j: nat, s': System)
    requires StatusStep(s, j, s')
    ensures s'.clients == s.clients
    ensures j < |s.statuses| && j < |s'.statuses| && forall k :: 0 <= k < |s.statuses| && k != j ==> k < |s'.statuses| && s'.statuses[k] == s.statuses[k]
    ensures s'.statuses[j].pc == RemoveOld && s.statuses[j].pc != RemoveOld ==> s.pidFile.Some? && s.pidFile == s.statuses[j].seen
  {
  }

  /** Nobody comes to remove the record without having found it to be its own. */
  lemma WhoComesToRemove(s: System, s': System)
    requires Next(s, s')
    ensures forall i :: 0 <= i < |s.clients| && i < |s'.clients| && s'.clients[i].pc == Remove && s.clients[i].pc != Remove ==>
              s.pidFile == Some(s.clients[i].record) && ReportsSuccess(s.clients[i])
    ensures forall j :: 0 <= j < |s.statuses| && j < |s'.statuses| && s'.statuses[j].pc == RemoveOld && s.statuses[j].pc != RemoveOld ==>
              s.pidFile.Some? && s.pidFile == s.statuses[j].seen
  {
    hide ClientStep, StatusStep;
    if i: nat :| ClientStep(s, i, s') {
      ClientComesToRemove(s, i, s');
    } else if j: nat :| StatusStep(s, j, s') {
      StatusComesToRemove(s, j, s');
    }
  }

  // A client or a status call stands between comparing and removing, and compared another record.
  ghost predicate Stale(s: System, other: ApiRecord) {
    || (exists i :: 0 <= i < |s.clients| && s.clients[i].pc == Remove && s.clients[i].record != other)
    || (exists j :: 0 <= j < |s.statuses| && s.statuses[j].pc == RemoveOld && s.statuses[j].seen != Some(other))
  }

  // A step of a client or a status call that removes a record it is not about.
  ghost predicate RemovesForeign(s: System, other: ApiRecord, s': System) {
    && s'.pidFile == None
    && (|| (exists i :: 0 <= i < |s.clients| && ClientStep(s, i, s') && s.clients[i].record != other)
        || (exists j :: 0 <= j < |s.statuses| && StatusStep(s, j, s') && s.statuses[j].seen != Some(other)))
  }

  /** A record can be removed by someone whose own record it is not, if and only if someone stands between
      comparing and removing. */
  lemma ForeignRemoval(s: System, other: ApiRecord)
    requires s.pidFile == Some(other)
    ensures (exists s' :: RemovesForeign(s, other, s')) <==> Stale(s, other)
  {
    if s' :| RemovesForeign(s, other, s') {
      if i :| 0 <= i < |s.clients| && ClientStep(s, i, s') && s.clients[i].record != other {
        assert s.clients[i].pc == Remove;
      } else {
        var j :| 0 <= j < |s.statuses| && StatusStep(s, j, s') && s.statuses[j].seen != Some(other);
        assert s.statuses[j].pc == RemoveOld;
      }
    }
    if i :| 0 <= i < |s.clients| && s.clients[i].pc == Remove && s.clients[i].record != other {
      var s' := SetClient(s, i, s.clients[i].(pc := Unlink)).(pidFile := None);
      assert RemoveRecord(s, i, s') && ClientStep(s, i, s');
      assert RemovesForeign(s, other, s');
    } else if j :| 0 <= j < |s.statuses| && s.statuses[j].pc == RemoveOld && s.statuses[j].seen != Some(other) {
      var s' := SetStatus(s, j, s.statuses[j].(pc := Done)).(pidFile := None);
      assert RemoveOldRecord(s, j, s') && StatusStep(s, j, s');
      assert RemovesForeign(s, other, s');
    }
  }

  /** Someone stands between comparing and removing. */
  ghost predicate Standing(s: System) {
    || (exists i :: 0 <= i < |s.clients| && s.clients[i].pc == Remove)
    || (exists j :: 0 <= j < |s.statuses| && s.statuses[j].pc == RemoveOld)
  }

  ghost predicate Compares(s: System, s': System) {
    || (exists i :: 0 <= i < |s.clients| && CompareRecord(s, i, s'))
    || (exists j :: 0 <= j < |s.statuses| && CompareOldRecord(s, j, s'))
  }

  /** Any steps of anyone, but for comparisons. */
  ghost predicate Uncompared(run: seq<System>) {
    && run != []
    && forall k :: 0 <= k < |run| - 1 ==> Next(run[k], run[k + 1]) && !Compares(run[k], run[k + 1])
  }

  ghost predicate LosesForeign(s: System, s': System) {
    s.pidFile.Some? && RemovesForeign(s, s.pidFile.value, s')
  }

  lemma NobodyRemoves(s: System, s': System)
    requires !Standing(s)
    ensures !LosesForeign(s, s')
  {
  }

  lemma ClientStaysAway(s: System, i: nat, s': System)
    requires !Standing(s) && ClientStep(s, i, s') && !CompareRecord(s, i, s')
    ensures !Standing(s')
  {
    ClientStepFrame(s, i, s');
    assert s'.statuses == s.statuses && s'.clients[i].pc != Remove;
    assert forall j :: 0 <= j < |s'.clients| && j != i ==> s'.clients[j] == s.clients[j];
    hide ClientStep, CompareRecord;
  }

  lemma StatusStaysAway(s: System, j: nat, s': System)
    requires !Standing(s) && StatusStep(s, j, s') && !CompareOldRecord(s, j, s')
    ensures !Standing(s')
  {
  }

  lemma OnlyComparingStands(s: System, s': System)
    requires !Standing(s) && Next(s, s') && !Compares(s, s')
    ensures !Standing(s') && !LosesForeign(s, s')
  {
    NobodyRemoves(s, s');
    hide ClientStep, StatusStep, CompareRecord, CompareOldRecord, LosesForeign;
    if i: nat :| ClientStep(s, i, s') {
      IsIndex(s, i, s');
      ClientStaysAway(s, i, s');
    } else if j: nat :| StatusStep(s, j, s') {
      IsStatusIndex(s, j, s');
      StatusStaysAway(s, j, s');
    }
  }

  lemma IsIndex(s: System, i: nat, s': System)
    requires ClientStep(s, i, s')
    ensures i < |s.clients|
  {
  }

  lemma IsStatusIndex(s: System, j: nat, s': System)
    requires StatusStep(s, j, s')
    ensures j < |s.statuses|
  {
  }

  lemma {:induction false} NobodyStands(run: seq<System>, k: nat)
    requires Uncompared(run) && !Standing(run[0]) && k < |run|
    ensures !Standing(run[k])
  {
    hide Next, Compares, Standing, LosesForeign;
    if k > 0 {
      NobodyStands(run, k - 1);
      OnlyComparingStands(run[k - 1], run[k - 1 + 1]);
    }
  }

  lemma StandingRemoves(s: System) returns (mid: System, s': System)
    requires Standing(s)
    ensures Next(s, mid) && !Compares(s, mid) && Next(mid, s') && !Compares(mid, s') && LosesForeign(mid, s')
  {
    if i :| 0 <= i < |s.clients| && s.clients[i].pc == Remove {
      var own := s.clients[i].record;
      mid := s.(pidFile := Some(ApiRecord(own.pid + 1, own.instance)));
      s' := SetClient(mid, i, mid.clients[i].(pc := Unlink)).(pidFile := None);
      assert RemoveRecord(mid, i, s') && ClientStep(mid, i, s');
    } else {
      var j :| 0 <= j < |s.statuses| && s.statuses[j].pc == RemoveOld;
      var seen := s.statuses[j].seen;
      mid := s.(pidFile := Some(ApiRecord(if seen.Some? then seen.value.pid + 1 else 0, "")));
      s' := SetStatus(mid, j, mid.statuses[j].(pc := Done)).(pidFile := None);
      assert RemoveOldRecord(mid, j, s') && StatusStep(mid, j, s');
    }
    assert OthersStep(s, mid);
  }

  /** From a state some run without a further comparison removes a record that is not the remover's own, if
      and only if someone stands between comparing and removing. */
  lemma ForeignRemovalRuns(s: System)
    ensures (exists run :: Uncompared(run) && |run| >= 2 && run[0] == s && LosesForeign(run[|run| - 2], run[|run| - 1])) <==> Standing(s)
  {
    hide Next, Compares, Standing, LosesForeign;
    if Standing(s) {
      var mid, s' := StandingRemoves(s);
      var run := [s, mid, s'];
      assert Uncompared(run) && LosesForeign(run[|run| - 2], run[|run| - 1]);
    } else {
      forall run | Uncompared(run) && |run| >= 2 && run[0] == s ensures !LosesForeign(run[|run| - 2], run[|run| - 1]) {
        NobodyStands(run, |run| - 2);
        OnlyComparingStands(run[|run| - 2], run[|run| - 2 + 1]);
      }
    }
  }

  // A stop client that has stopped its server and compared the record: it is about to remove it.
  const COMPARED := System(map["a" := Stopped(7)], Some(ApiRecord(7, "a")), Server("a", 7, Exited, true, true),
                           [Client(ApiRecord(7, "a"), Remove, true, false)], [])

  lemma StopAndCompare() returns (run: seq<System>)
    ensures Steps(run) && Init(run[0]) && run[|run| - 1] == COMPARED
  {
    var c := Client(ApiRecord(7, "a"), Check, false, false);
    var waiting := c.(pc := Poll, wrote := true);
    var s0 := System(map[], Some(ApiRecord(7, "a")), Server("a", 7, Serving, false, false), [c], []);
    var s1 := s0.(clients := [c.(pc := Write)]);
    var s2 := s1.(clients := [waiting], files := map["a" := Stop(7)]);
    var stop := Shutdown(s2);
    var s6 := stop[4];
    var s7 := s6.(clients := [waiting.(pc := Compare)]);
    assert CheckStopped(s0, 0, s1) && WriteRequest(s1, 0, s2) && PollStopped(s6, 0, s7) && CompareRecord(s7, 0, COMPARED);
    assert Init(s0);
    hide CheckStopped, WriteRequest, PollStopped, CompareRecord, Init;
    ClientMoves(s0, 0, s1);
    ClientMoves(s1, 0, s2);
    ClientMoves(s6, 0, s7);
    ClientMoves(s7, 0, COMPARED);
    hide ClientStep, Next, Steps;
    run := Concatenated([[s0, s1], [s1, s2], stop, [s6, s7], [s7, COMPARED]]);
  }

  /** And it happens: a stop client compares the record of the stopped server, a new start writes its own,
      and the client removes that. */
  lemma ReplacementRace() returns (run: seq<System>)
    ensures Run(run) && |run| >= 2
    ensures run[|run| - 2].pidFile == Some(ApiRecord(8, "b")) && run[|run| - 1].pidFile == None
    ensures forall c :: c in run[|run| - 1].clients ==> c.record == ApiRecord(7, "a")
  {
    var pre := StopAndCompare();
    var s := COMPARED.(pidFile := Some(ApiRecord(8, "b")));
    var s' := s.(clients := [Client(ApiRecord(7, "a"), Unlink, true, false)], pidFile := None);
    assert RemoveRecord(s, 0, s') && OthersStep(COMPARED, s);
    hide RemoveRecord, Init;
    ClientMoves(s, 0, s');
    NewStart(COMPARED, s);
    hide ClientStep, OthersStep, Next;
    NonEmpty(pre);
    Joined(pre, [COMPARED, s]);
    Joined(pre + [COMPARED, s][1..], [s, s']);
    run := pre + [s] + [s'];
    StepsRun(run);
  }

  lemma NonEmpty(run: seq<System>)
    requires Steps(run)
    ensures run != []
  {
  }

  lemma NewStart(s: System, s': System)
    requires OthersStep(s, s')
    ensures Steps([s, s'])
  {
    assert Next(s, s');
    hide Next;
  }
}
