/** The connection state of the storage coordinator and the payload it publishes. */
module Connection {
  import opened Prelude
  import opened Json

  const FAILURES_BEFORE_OFFLINE: nat := 2

  /** How one storage poll ends: data, data whose optional refresh then raised an error that
      nothing handles, a connection failure, refused credentials, or an unexpected response. */
  datatype Poll =
    | Succeeded(payload: Fields)
    | OptionalRaised(payload: Fields)
    | ConnectionFailed
    | CredentialsRefused
    | UnexpectedAnswer

  /** What the update method does: return a payload, or raise. */
  datatype Update = Returned(payload: Fields) | Raised

  datatype State = State(online: bool, failures: nat, data: Option<Fields>)

  const INITIAL := State(true, 0, None)

  /** `_with_offline_status`: a shallow copy with `_system.status` set to offline. */
  function WithOfflineStatus(data: Fields): (r: Fields) {
    var system := match Get(data, "_system")
      case Obj(fields) => fields
      case _ => map[];
    data["_system" := Obj(system["status" := Str("offline")])]
  }

  /** `_handle_connection_failure` */
  function Fail(s: State): (State, Update) {
    match s.data
    case None => (s.(online := false, failures := FAILURES_BEFORE_OFFLINE), Raised)
    case Some(cached) =>
      var failures := s.failures + 1;
      if s.online && failures < FAILURES_BEFORE_OFFLINE then (s.(failures := failures), Returned(cached))
      else (s.(failures := failures, online := false), Returned(WithOfflineStatus(cached)))
  }

  /** `_async_update_data` */
  function UpdateData(s: State, p: Poll): (State, Update) {
    match p
    case Succeeded(payload) => (s.(failures := 0, online := true), Returned(payload))
    case OptionalRaised(_) => (s.(failures := 0, online := true), Raised)
    case ConnectionFailed => Fail(s)
    case CredentialsRefused => (s, Raised)
    case UnexpectedAnswer => (s, Raised)
  }

  /** One refresh: a returned payload becomes the published data, a raise keeps the old. */
  function Refresh(s: State, p: Poll): State {
    var (t, update) := UpdateData(s, p);
    match update
    case Returned(payload) => t.(data := Some(payload))
    case Raised => t
  }

  /** The state after a run of polls. */
  function Run(polls: seq<Poll>): State {
    if polls == [] then INITIAL else Refresh(Run(polls[..|polls| - 1]), polls[|polls| - 1])
  }

  /** The payload of the last poll that published one of its own. */
  function LastPayload(polls: seq<Poll>): Option<Fields> {
    if polls == [] then None
    else if polls[|polls| - 1].Succeeded? then Some(polls[|polls| - 1].payload)
    else LastPayload(polls[..|polls| - 1])
  }

  /** The storage was read. */
  predicate StorageRead(p: Poll) {
    p.Succeeded? || p.OptionalRaised?
  }

  /** The connection failures after the last storage read, or all of them without one. */
  function FailuresSince(polls: seq<Poll>): nat {
    if polls == [] || StorageRead(polls[|polls| - 1]) then 0
    else FailuresSince(polls[..|polls| - 1]) + if polls[|polls| - 1].ConnectionFailed? then 1 else 0
  }

  /** Offline: any failure before the first publication, two failures after the last read. */
  predicate ShouldBeOffline(polls: seq<Poll>) {
    FailuresSince(polls) >= if LastPayload(polls).None? then 1 else 2
  }

  /** The device was offline at some point since the last publication. */
  predicate WasOffline(polls: seq<Poll>) {
    polls != [] && !polls[|polls| - 1].Succeeded? && LastPayload(polls).Some?
    && (ShouldBeOffline(polls) || WasOffline(polls[..|polls| - 1]))
  }

  /** Marking twice is marking once; nothing but the status field changes. */
  lemma OfflineStatusOnly(data: Fields)
    ensures var r := WithOfflineStatus(data);
      && WithOfflineStatus(r) == r
      && (forall k :: k != "_system" ==> Get(r, k) == Get(data, k))
      && r.Keys == data.Keys + {"_system"}
      && r["_system"].Obj? && Get(r["_system"].fields, "status") == Str("offline")
      && (Get(data, "_system").Obj? ==>
            forall k :: k != "status" ==> Get(r["_system"].fields, k) == Get(data["_system"].fields, k))
  {
    var r := WithOfflineStatus(data);
    var system := r["_system"].fields;
    assert system["status" := Str("offline")] == system;
    assert r["_system" := Obj(system)] == r;
  }

  /** Over every run, the device is offline exactly when it should be, other errors do not
      count, and the published payload is the last one published, marked exactly when the
      device was offline at some point since. */
  lemma {:induction false} ConnectionState(polls: seq<Poll>)
    ensures var s := Run(polls);
      && (s.online <==> !ShouldBeOffline(polls))
      && s.data == (match LastPayload(polls)
                    case None => None
                    case Some(d) => Some(if WasOffline(polls) then WithOfflineStatus(d) else d))
      && (s.online && s.data.Some? ==> s.failures == FailuresSince(polls))
  {
    if polls != [] {
      var front := polls[..|polls| - 1];
      ConnectionState(front);
      if LastPayload(front).Some? {
        OfflineStatusOnly(LastPayload(front).value);
      }
    }
  }

  /** No optional refresh raised since the device was last offline, as far as the last publication. */
  predicate NoRaiseSinceOffline(polls: seq<Poll>) {
    polls == [] || polls[|polls| - 1].Succeeded? || ShouldBeOffline(polls)
    || (!(polls[|polls| - 1].OptionalRaised? && WasOffline(polls[..|polls| - 1]))
        && NoRaiseSinceOffline(polls[..|polls| - 1]))
  }

  lemma {:induction false} RaiseKeepsMark(polls: seq<Poll>)
    requires LastPayload(polls).Some?
    ensures (WasOffline(polls) <==> ShouldBeOffline(polls)) <==> NoRaiseSinceOffline(polls)
  {
    var front := polls[..|polls| - 1];
    if !polls[|polls| - 1].Succeeded? {
      RaiseKeepsMark(front);
    }
  }

  /** The mark agrees with the connection state exactly when no optional refresh raised, since the
      last publication, on the poll that brought the device back. */
  lemma MarkAgrees(polls: seq<Poll>)
    requires LastPayload(polls).Some?
    ensures var s, d := Run(polls), LastPayload(polls).value;
      NoRaiseSinceOffline(polls) ==> s.data == Some(if s.online then d else WithOfflineStatus(d))
    ensures var s, d := Run(polls), LastPayload(polls).value;
      !NoRaiseSinceOffline(polls) ==> s.online && s.data == Some(WithOfflineStatus(d))
  {
    ConnectionState(polls);
    RaiseKeepsMark(polls);
    if ShouldBeOffline(polls) {
      assert NoRaiseSinceOffline(polls);
    }
  }

  /** The device is back and the published status still says offline: two failures, then a
      storage read whose optional refresh raises. */
  lemma OnlineButMarked(d: Fields, e: Fields)
    ensures var s := Run([Succeeded(d), ConnectionFailed, ConnectionFailed, OptionalRaised(e)]);
      s.online && s.data == Some(WithOfflineStatus(d))
  {
    var polls := [Succeeded(d), ConnectionFailed, ConnectionFailed, OptionalRaised(e)];
    assert polls[..3] == [Succeeded(d), ConnectionFailed, ConnectionFailed];
    assert polls[..3][..2] == [Succeeded(d), ConnectionFailed];
    assert polls[..3][..2][..1] == [Succeeded(d)];
    assert Run(polls[..3][..2][..1]).data == Some(d);
    assert Run(polls[..3][..2]) == State(true, 1, Some(d));
    assert Run(polls[..3]) == State(false, 2, Some(WithOfflineStatus(d)));
  }

  /** The polls that raise: refused credentials, unexpected answers, a raising optional refresh,
      and connection failures before the first publication. */
  lemma RaisingPolls(polls: seq<Poll>, p: Poll)
    ensures UpdateData(Run(polls), p).1.Raised? <==>
              || p.CredentialsRefused? || p.UnexpectedAnswer? || p.OptionalRaised?
              || (p.ConnectionFailed? && LastPayload(polls).None?)
  {
    ConnectionState(polls);
  }

  /** The coordinator's connection fields. */
  class StorageCoordinator {
    var online: bool
    var failures: nat
    var data: Option<Fields>

    ghost function Value(): State
      reads this
    {
      State(online, failures, data)
    }

    constructor ()
      ensures Value() == INITIAL
    {
      online, failures, data := true, 0, None;
    }

    /** One refresh as the update coordinator drives it. */
    method Poll(p: Poll)
      modifies this
      ensures Value() == Refresh(old(Value()), p)
    {
      var update := Update(p);
      if update.Returned? {
        data := Some(update.payload);
      }
    }

    /** `_async_update_data` */
    method Update(p: Poll) returns (r: Update)
      modifies this
      ensures (Value(), r) == UpdateData(old(Value()), p)
    {
      match p {
        case Succeeded(payload) =>
          failures := 0;
          online := true;
          r := Returned(payload);
        case OptionalRaised(_) =>
          failures := 0;
          online := true;
          r := Raised;
        case ConnectionFailed =>
          r := HandleFailure();
        case _ =>
          r := Raised;
      }
    }

    /** `_handle_connection_failure` */
    method HandleFailure() returns (r: Update)
      modifies this
      ensures (Value(), r) == Fail(old(Value()))
    {
      if data.None? {
        online := false;
        failures := FAILURES_BEFORE_OFFLINE;
        return Raised;
      }
      failures := failures + 1;
      if online && failures < FAILURES_BEFORE_OFFLINE {
        return Returned(data.value);
      }
      online := false;
      r := Returned(WithOfflineStatus(data.value));
    }
  }
}
