/** The join-token refresh Lambda (tf/lambda_function.py) as a pure function
    over an abstract world: the `describe_instances` answer, the parameter
    store, the outcome of the remote command and a clock. Each run yields a
    status or a raised error, the ordered trace of service calls it made,
    and the parameter store it leaves behind. */
module JoinToken {
  import opened Wrappers
  import opened Ssm
  import PyStrings

  const SSM_PARAM := "/k8s/worker/join-command-majd"
  const CONTROL_PLANE_NAME := "majd-k8s-cp"
  const RUNNING := "running"
  const RUN_SHELL_DOCUMENT := "AWS-RunShellScript"
  const JOIN_COMMAND := "kubeadm token create --print-join-command"
  /** Age past which the (unreachable) freshness test calls a token stale. */
  const STALE_AFTER_SECONDS := 23 * 60 * 60

  type InstanceId = string

  /** One reservation of the `describe_instances` response, holding the ids
      of its instances in response order. */
  datatype Reservation = Reservation(instances: seq<InstanceId>)

  /** How the remote `send_command` round trip ends: the call itself is
      rejected, the `command_executed` waiter gives up (the command failed,
      was cancelled or timed out), or the command completes and its
      invocation reports standard output. */
  datatype RemoteOutcome =
    | SendRejected
    | WaiterFailed(commandId: string)
    | Completed(commandId: string, stdout: string)

  datatype World = World(
    reservations: seq<Reservation>,
    store: ParamStore,
    remote: RemoteOutcome,
    now: int)

  /** The service calls a run makes, in order. */
  datatype Effect =
    | DescribeInstances(nameTag: string, state: string)
    | GetParameterCall(name: string, withDecryption: bool)
    | SendCommand(instance: InstanceId, document: string, commands: seq<string>)
    | WaitCommand(commandId: string, instance: InstanceId)
    | GetInvocation(commandId: string, instance: InstanceId)
    | PutParameterCall(name: string, value: string, kind: ParamType, overwrite: bool)

  /** Exceptions that escape the handler. */
  datatype Fault = SendCommandError | WaiterError(commandId: string)

  datatype Outcome = Status(code: int) | Raised(fault: Fault)

  datatype Run = Run(outcome: Outcome, trace: seq<Effect>, store: ParamStore)

  /** The result of `generate_new_token`: an escaping error, if any, the calls
      it made and the store after them. */
  datatype Step = Step(fault: Option<Fault>, trace: seq<Effect>, store: ParamStore)

  /** The freshness guard. `AlwaysRotate` is the guard as written
      (`True or ...`); `TimeGated` is the age comparison it short-circuits. */
  datatype RotationPolicy = AlwaysRotate | TimeGated

  predicate IsSend(e: Effect) { e.SendCommand? }
  predicate IsPut(e: Effect) { e.PutParameterCall? }
  predicate IsGet(e: Effect) { e.GetParameterCall? }

  /** Number of effects of `t` that satisfy `p`. */
  function Count(t: seq<Effect>, p: Effect -> bool): (n: nat)
    ensures n <= |t|
  {
    if t == [] then 0 else (if p(t[0]) then 1 else 0) + Count(t[1..], p)
  }

  /** The store obtained by replaying the writes of `t`, in order, on `store`
      (the handler only ever writes with `Overwrite=True`); every other call
      leaves the store as it is. */
  function Replay(store: ParamStore, t: seq<Effect>, now: int): (r: ParamStore)
    decreases t
  {
    if t == [] then store
    else
      var next := match t[0]
        case PutParameterCall(name, value, kind, _) => PutParameter(store, name, value, kind, now)
        case _ => store;
      Replay(next, t[1..], now)
  }

  /** Calls other than writes leave the store alone. */
  lemma {:induction false} ReplayWithoutPuts(store: ParamStore, t: seq<Effect>, now: int)
    requires Count(t, IsPut) == 0
    ensures Replay(store, t, now) == store
    decreases t
  {
    if t != [] {
      ReplayWithoutPuts(store, t[1..], now);
    }
  }

  /** Replaying a concatenation replays its two parts in turn. */
  lemma {:induction false} ReplayAppend(store: ParamStore, a: seq<Effect>, b: seq<Effect>, now: int)
    ensures Replay(store, a + b, now) == Replay(Replay(store, a, now), b, now)
    decreases a
  {
    if a != [] {
      assert (a + b)[1..] == a[1..] + b;
      var next := match a[0]
        case PutParameterCall(name, value, kind, _) => PutParameter(store, name, value, kind, now)
        case _ => store;
      ReplayAppend(next, a[1..], b, now);
    } else {
      assert a + b == b;
    }
  }

  function Indicator(b: bool): (n: nat) { if b then 1 else 0 }

  lemma CountOfFour(a: Effect, b: Effect, c: Effect, d: Effect, p: Effect -> bool)
    ensures Count([a, b, c, d], p) == Indicator(p(a)) + Indicator(p(b)) + Indicator(p(c)) + Indicator(p(d))
  {
    var t := [a, b, c, d];
    assert t[1..] == [b, c, d];
    assert t[1..][1..] == [c, d];
    assert t[1..][1..][1..] == [d];
    assert t[1..][1..][1..][1..] == [];
    assert Count([d], p) == Indicator(p(d));
    assert Count([c, d], p) == Indicator(p(c)) + Count([d], p);
    assert Count([b, c, d], p) == Indicator(p(b)) + Count([c, d], p);
    assert Count(t, p) == Indicator(p(a)) + Count([b, c, d], p);
  }

  /** A write-free prefix followed by one write leaves the store as that write alone would. */
  lemma ReplayLastWrite(store: ParamStore, prefix: seq<Effect>, put: Effect, now: int)
    requires Count(prefix, IsPut) == 0 && put.PutParameterCall?
    ensures Replay(store, prefix + [put], now)
         == PutParameter(store, put.name, put.value, put.kind, now)
  {
    ReplayAppend(store, prefix, [put], now);
    ReplayWithoutPuts(store, prefix, now);
    assert [put][1..] == [];
  }

  /** Counting over a concatenation adds the counts of its parts. */
  lemma {:induction false} CountAppend(a: seq<Effect>, b: seq<Effect>, p: Effect -> bool)
    ensures Count(a + b, p) == Count(a, p) + Count(b, p)
    decreases a
  {
    if a != [] {
      assert (a + b)[1..] == a[1..] + b;
      CountAppend(a[1..], b, p);
    } else {
      assert a + b == b;
    }
  }

  /** `get_control_plane_instance_id`: the first instance of the first
      reservation; nothing when there is no reservation or the first one is
      empty, whatever later reservations hold. */
  function Locate(reservations: seq<Reservation>): (r: Option<InstanceId>)
    ensures r.Some? <==> reservations != [] && reservations[0].instances != []
    ensures r.Some? ==> r.value == reservations[0].instances[0]
  {
    if reservations != [] && reservations[0].instances != [] then Some(reservations[0].instances[0])
    else None
  }

  /** The instance the handler goes on with: the located id when it is
      truthy in Python, i.e. present and not the empty string. */
  function Target(reservations: seq<Reservation>): (r: Option<InstanceId>)
    ensures r.Some? ==> r.value != "" && Locate(reservations) == r
    ensures r.None? ==> Locate(reservations) in {None, Some("")}
  {
    match Locate(reservations)
    case Some(id) => if id == "" then None else Some(id)
    case None => None
  }

  /** The age comparison of the guard, in seconds: strictly older than 23 hours. */
  predicate IsStale(now: int, lastModified: int): (stale: bool)
    ensures stale ==> lastModified < now
    ensures now - lastModified == STALE_AFTER_SECONDS ==> !stale
    ensures now - lastModified == STALE_AFTER_SECONDS + 1 ==> stale
  {
    now - lastModified > STALE_AFTER_SECONDS
  }

  /** The guard of the token-age `if`: under `AlwaysRotate` it holds for every
      clock and every age; under `TimeGated` it is the age test alone. */
  predicate ShouldRotate(policy: RotationPolicy, now: int, lastModified: int): (rotate: bool)
    ensures policy.AlwaysRotate? ==> rotate
    ensures policy.TimeGated? ==> (rotate <==> IsStale(now, lastModified))
  {
    policy.AlwaysRotate? || IsStale(now, lastModified)
  }

  /** `generate_new_token`: send the join-command generator to `id`, wait for
      it, read its output and store the stripped output as a SecureString,
      overwriting. A rejected send or a failed wait raises, so nothing is
      written. */
  function GenerateNewToken(id: InstanceId, remote: RemoteOutcome, store: ParamStore, now: int): (g: Step)
    ensures g.trace != [] && g.trace[0] == SendCommand(id, RUN_SHELL_DOCUMENT, [JOIN_COMMAND])
    ensures Count(g.trace, IsSend) == 1
    ensures Count(g.trace, IsGet) == 0
    ensures g.fault.None? <==> remote.Completed?
    ensures g.fault.Some? ==> Count(g.trace, IsPut) == 0 && g.store == store
    ensures remote.Completed? ==>
              && Count(g.trace, IsPut) == 1
              && g.trace[|g.trace| - 1] == PutParameterCall(SSM_PARAM, PyStrings.Strip(remote.stdout), SecureString, true)
              && SSM_PARAM in g.store
              && g.store[SSM_PARAM] == Parameter(PyStrings.Strip(remote.stdout), SecureString, now)
    ensures g.store == Replay(store, g.trace, now)
  {
    var send := SendCommand(id, RUN_SHELL_DOCUMENT, [JOIN_COMMAND]);
    match remote
    case SendRejected =>
      Step(Some(SendCommandError), [send], store)
    case WaiterFailed(cid) =>
      var t := [send, WaitCommand(cid, id)];
      ReplayWithoutPuts(store, t, now);
      Step(Some(WaiterError(cid)), t, store)
    case Completed(cid, stdout) =>
      var joinCmd := PyStrings.Strip(stdout);
      var put := PutParameterCall(SSM_PARAM, joinCmd, SecureString, true);
      var t := [send, WaitCommand(cid, id), GetInvocation(cid, id), put];
      CountOfFour(send, WaitCommand(cid, id), GetInvocation(cid, id), put, IsSend);
      CountOfFour(send, WaitCommand(cid, id), GetInvocation(cid, id), put, IsGet);
      CountOfFour(send, WaitCommand(cid, id), GetInvocation(cid, id), put, IsPut);
      var calls := [send, WaitCommand(cid, id), GetInvocation(cid, id)];
      assert t == calls + [put];
      CountAppend(calls, [put], IsPut);
      assert Count([put], IsPut) == 1;
      ReplayLastWrite(store, calls, put, now);
      Step(None, t, PutParameter(store, SSM_PARAM, joinCmd, SecureString, now))
  }

  /** `lambda_handler` under a given freshness guard. The store only ever
      changes through the writes in the trace; at most one command is sent
      and at most one write made; 500 is returned exactly when no usable
      instance was located; an escaping error leaves the store untouched. */
  function Handle(policy: RotationPolicy, w: World): (run: Run)
    ensures run.trace != [] && run.trace[0] == DescribeInstances(CONTROL_PLANE_NAME, RUNNING)
    ensures run.store == Replay(w.store, run.trace, w.now)
    ensures Count(run.trace, IsSend) <= 1 && Count(run.trace, IsPut) <= 1
    ensures run.outcome == Status(500) <==> Target(w.reservations).None?
    ensures run.outcome.Raised? ==> Count(run.trace, IsPut) == 0 && run.store == w.store
    ensures run.outcome.Status? ==> run.outcome.code in {200, 500}
  {
    var describe := [DescribeInstances(CONTROL_PLANE_NAME, RUNNING)];
    match Target(w.reservations)
    case None =>
      assert describe[1..] == [];
      Run(Status(500), describe, w.store)
    case Some(id) =>
      var read := describe + [GetParameterCall(SSM_PARAM, true)];
      CountOfTwo(read[0], read[1], IsSend);
      CountOfTwo(read[0], read[1], IsPut);
      assert read == [read[0], read[1]];
      ReplayWithoutPuts(w.store, read, w.now);
      match GetParameter(w.store, SSM_PARAM)
      case Some(param) =>
        if ShouldRotate(policy, w.now, param.lastModified) then Rotate(read, id, w)
        else Run(Status(200), read, w.store)
      case None => Rotate(read, id, w)
  }

  lemma CountOfTwo(a: Effect, b: Effect, p: Effect -> bool)
    ensures Count([a, b], p) == Indicator(p(a)) + Indicator(p(b))
  {
  }

  /** The tail of the handler once `generate_new_token` is called after the
      calls in `prefix` (which neither send nor write): its error escapes,
      otherwise the handler returns 200. */
  function Rotate(prefix: seq<Effect>, id: InstanceId, w: World): (run: Run)
    requires Count(prefix, IsSend) == 0 && Count(prefix, IsPut) == 0
    ensures run.trace == prefix + GenerateNewToken(id, w.remote, w.store, w.now).trace
    ensures run.store == Replay(w.store, run.trace, w.now)
    ensures Count(run.trace, IsSend) == 1
    ensures Count(run.trace, IsPut) == (if w.remote.Completed? then 1 else 0)
    ensures run.outcome == Status(200) <==> w.remote.Completed?
    ensures run.outcome.Raised? ==> run.store == w.store
  {
    var g := GenerateNewToken(id, w.remote, w.store, w.now);
    CountAppend(prefix, g.trace, IsSend);
    CountAppend(prefix, g.trace, IsPut);
    ReplayAppend(w.store, prefix, g.trace, w.now);
    ReplayWithoutPuts(w.store, prefix, w.now);
    Run(if g.fault.Some? then Raised(g.fault.value) else Status(200), prefix + g.trace, g.store)
  }

  /** The deployed handler: the guard short-circuits to "always rotate". */
  function LambdaHandler(w: World): (run: Run)
    ensures run.outcome == Status(200) <==> Target(w.reservations).Some? && w.remote.Completed?
    ensures Target(w.reservations).Some? ==> Count(run.trace, IsSend) == 1
  {
    Handle(AlwaysRotate, w)
  }
}
