/** Properties of the join-token refresh handler, each over all worlds. */
module JoinTokenProperties {
  import opened Wrappers
  import opened Ssm
  import opened JoinToken
  import PyStrings

  /** With no usable control-plane instance the handler answers 500 after the
      instance query alone: no parameter read, no command, no write. */
  lemma NoInstanceShortCircuit(policy: RotationPolicy, w: World)
    requires Target(w.reservations).None?
    ensures Handle(policy, w) == Run(Status(500), [DescribeInstances(CONTROL_PLANE_NAME, RUNNING)], w.store)
    ensures Count(Handle(policy, w).trace, IsGet) == 0
    ensures Count(Handle(policy, w).trace, IsSend) == 0
    ensures Count(Handle(policy, w).trace, IsPut) == 0
  {
  }

  /** Only the first reservation is consulted: later reservations never
      change the answer, and an empty first reservation yields nothing even
      when later ones hold instances. */
  lemma LocateUsesFirstReservationOnly(first: Reservation, rest: seq<Reservation>)
    ensures Locate([first] + rest) == Locate([first])
    ensures first.instances == [] ==> Locate([first] + rest).None?
    ensures first.instances != [] ==> Locate([first] + rest) == Some(first.instances[0])
  {
  }

  /** A handler that goes past the locator reads the parameter exactly once,
      right after the instance query. */
  lemma ReadsParameterOnce(policy: RotationPolicy, w: World)
    requires Target(w.reservations).Some?
    ensures |Handle(policy, w).trace| >= 2
    ensures Handle(policy, w).trace[1] == GetParameterCall(SSM_PARAM, true)
    ensures Count(Handle(policy, w).trace, IsGet) == 1
  {
  }

  /** The deployed handler sends the join-command generator exactly once,
      only to the located instance, whenever such an instance exists: the
      parameter's presence, its age and the clock make no difference. */
  lemma SendsOnceToLocatedInstance(w: World)
    requires Target(w.reservations).Some?
    ensures LambdaHandler(w).trace[2] == SendCommand(Target(w.reservations).value, RUN_SHELL_DOCUMENT, [JOIN_COMMAND])
    ensures forall k :: 0 <= k < |LambdaHandler(w).trace| && k != 2 ==> !IsSend(LambdaHandler(w).trace[k])
  {
    var id := Target(w.reservations).value;
    var read := [DescribeInstances(CONTROL_PLANE_NAME, RUNNING)] + [GetParameterCall(SSM_PARAM, true)];
    var g := GenerateNewToken(id, w.remote, w.store, w.now);
    assert LambdaHandler(w) == Rotate(read, id, w);
    var send := SendCommand(id, RUN_SHELL_DOCUMENT, [JOIN_COMMAND]);
    match w.remote
    case SendRejected =>
      assert g.trace == [send];
    case WaiterFailed(cid) =>
      assert g.trace == [send, WaitCommand(cid, id)];
    case Completed(cid, out) =>
      assert g.trace == [send, WaitCommand(cid, id), GetInvocation(cid, id),
                         PutParameterCall(SSM_PARAM, PyStrings.Strip(out), SecureString, true)];
  }

  /** The outcome and call trace of the deployed handler do not depend on the
      clock or on when the stored token was last written. */
  lemma RotationIgnoresAge(w: World, now': int, lastModified': int)
    requires SSM_PARAM in w.store
    ensures var w' := w.(now := now', store := w.store[SSM_PARAM := w.store[SSM_PARAM].(lastModified := lastModified')]);
            && LambdaHandler(w').outcome == LambdaHandler(w).outcome
            && LambdaHandler(w').trace == LambdaHandler(w).trace
  {
  }

  /** A missing parameter is not an error: a fresh token is generated, and
      once the remote command completes the handler returns 200. */
  lemma MissingParameterRotates(policy: RotationPolicy, w: World)
    requires Target(w.reservations).Some? && SSM_PARAM !in w.store
    ensures Count(Handle(policy, w).trace, IsSend) == 1
    ensures w.remote.Completed? ==> Handle(policy, w).outcome == Status(200) && SSM_PARAM in Handle(policy, w).store
  {
  }

  /** A completed rotation makes exactly the calls `lambda_handler` makes, in order,
      ending with one write: the stripped command output under the fixed
      key, as a SecureString, overwriting. No other parameter changes. */
  lemma SuccessfulRotation(w: World)
    requires Target(w.reservations).Some? && w.remote.Completed?
    ensures var id := Target(w.reservations).value;
            var cid := w.remote.commandId;
            var token := PyStrings.Strip(w.remote.stdout);
            var run := LambdaHandler(w);
            && run.outcome == Status(200)
            && run.trace == [ DescribeInstances(CONTROL_PLANE_NAME, RUNNING),
                              GetParameterCall(SSM_PARAM, true),
                              SendCommand(id, RUN_SHELL_DOCUMENT, [JOIN_COMMAND]),
                              WaitCommand(cid, id),
                              GetInvocation(cid, id),
                              PutParameterCall(SSM_PARAM, token, SecureString, true) ]
            && run.store == w.store[SSM_PARAM := Parameter(token, SecureString, w.now)]
  {
    var id := Target(w.reservations).value;
    var read := [DescribeInstances(CONTROL_PLANE_NAME, RUNNING)] + [GetParameterCall(SSM_PARAM, true)];
    var g := GenerateNewToken(id, w.remote, w.store, w.now);
    assert LambdaHandler(w) == Rotate(read, id, w);
    assert Rotate(read, id, w).trace == read + g.trace;
  }

  /** The written token has no whitespace at either end, and stripping it
      again changes nothing. */
  lemma WrittenTokenIsTrimmed(w: World)
    requires Target(w.reservations).Some? && w.remote.Completed?
    ensures SSM_PARAM in LambdaHandler(w).store
    ensures var token := LambdaHandler(w).store[SSM_PARAM].value;
            PyStrings.Trimmed(token) && PyStrings.Strip(token) == token
            && PyStrings.IsStripOf(w.remote.stdout, token)
  {
  }

  /** A failed wait (or a rejected send) escapes the handler before any
      write, leaving the store as it was. */
  lemma RemoteFailureLeavesStore(policy: RotationPolicy, w: World)
    requires Target(w.reservations).Some? && !w.remote.Completed?
    ensures Handle(policy, w).store == w.store
    ensures Count(Handle(policy, w).trace, IsPut) == 0
    ensures w.remote.WaiterFailed? && (SSM_PARAM !in w.store || policy.AlwaysRotate?) ==>
              Handle(policy, w).outcome == Raised(WaiterError(w.remote.commandId))
    ensures w.remote.SendRejected? && (SSM_PARAM !in w.store || policy.AlwaysRotate?) ==>
              Handle(policy, w).outcome == Raised(SendCommandError)
  {
  }

  /** A 200 from the deployed handler means exactly one write happened and
      the stored token is now the stripped output of the remote command. */
  lemma OkMeansWritten(w: World)
    ensures LambdaHandler(w).outcome == Status(200) ==>
              && w.remote.Completed?
              && Count(LambdaHandler(w).trace, IsPut) == 1
              && SSM_PARAM in LambdaHandler(w).store
              && LambdaHandler(w).store[SSM_PARAM].value == PyStrings.Strip(w.remote.stdout)
  {
  }

  /** Under the age test the guard short-circuits, a token younger than the
      threshold is left alone: no command, no write, status 200. */
  lemma TimeGatedFreshIsIdle(w: World)
    requires Target(w.reservations).Some? && SSM_PARAM in w.store
    requires !IsStale(w.now, w.store[SSM_PARAM].lastModified)
    ensures Handle(TimeGated, w).outcome == Status(200)
    ensures Count(Handle(TimeGated, w).trace, IsSend) == 0
    ensures Count(Handle(TimeGated, w).trace, IsPut) == 0
    ensures Handle(TimeGated, w).store == w.store
  {
  }

  /** Under the age test, a second invocation within 23 hours of a
      successful rotation does nothing, whereas the deployed handler rotates
      again. */
  lemma SecondRunWithinWindow(w: World, later: int, remote: RemoteOutcome)
    requires Target(w.reservations).Some? && w.remote.Completed?
    requires SSM_PARAM !in w.store || IsStale(w.now, w.store[SSM_PARAM].lastModified)
    requires w.now <= later <= w.now + STALE_AFTER_SECONDS
    ensures var w2 := w.(store := Handle(TimeGated, w).store, now := later, remote := remote);
            && Count(Handle(TimeGated, w2).trace, IsSend) == 0
            && Handle(TimeGated, w2).store == w2.store
            && Count(LambdaHandler(w2).trace, IsSend) == 1
  {
    var w2 := w.(store := Handle(TimeGated, w).store, now := later, remote := remote);
    assert w2.store[SSM_PARAM].lastModified == w.now;
    TimeGatedFreshIsIdle(w2);
  }
}
