/** The seccomp supervisor: receiving, handling and answering notifications, and joining the handlers. */
module Supervisors {
  import opened Common

  const EINTR: Errno := OtherErrno(4)
  const EWOULDBLOCK: Errno := OtherErrno(11)

  /** Stands for the error of joining a task that was dropped or has panicked. */
  const JOIN_ERROR: Errno := OtherErrno(-1)

  /** SECCOMP_USER_NOTIF_FLAG_CONTINUE. */
  const CONTINUE: nat := 1

  /** `seccomp_notif` and `seccomp_notif_resp`, as far as they are looked at. */
  datatype Notif = Notif(id: nat, nr: int, args: seq<nat>)

  datatype Resp = Resp(id: nat, val: int, error: int, flags: nat)

  const ZERO_NOTIF: Notif := Notif(0, 0, [])
  const ZERO_RESP: Resp := Resp(0, 0, 0, 0)

  /** What waiting for the notify fd comes to. `Cancelled`: the task is dropped while it waits. */
  datatype Poll =
    | Cancelled
    | NotReady(error: Errno)
    | Ready(readClosed: bool, writeClosed: bool, readable: bool, recv: Result<Notif, Errno>)

  /** What the supervisor does, in order. */
  datatype Event = Received(id: nat) | Handled(id: nat) | Continued(id: nat)

  /** How waiting for a notification ends. */
  datatype Awaited = Got(notif: Notif) | HungUp | Broken(error: Errno) | Dropped

  /** Errors after which receiving is tried again. */
  predicate Retried(e: Errno) {
    e == EINTR || e == EWOULDBLOCK || e == ENOENT
  }

  /** The outcome of waiting and how much of the script it takes. When the script ends the fd is hung up:
      no process with the filter is left. */
  function Await(polls: seq<Poll>, at: nat): (Awaited, nat)
    requires at <= |polls|
    decreases |polls| - at
  {
    if at == |polls| then (HungUp, at)
    else
      match polls[at]
      case Cancelled => (Dropped, at + 1)
      case NotReady(e) => (Broken(e), at + 1)
      case Ready(readClosed, writeClosed, readable, recv) =>
        if readClosed || writeClosed then (HungUp, at + 1)
        else if !readable then Await(polls, at + 1)
        else
          match recv
          case Ok(n) => (Got(n), at + 1)
          case Err(e) => if Retried(e) then Await(polls, at + 1) else (Broken(e), at + 1)
  }

  lemma {:induction false} AwaitMoves(polls: seq<Poll>, at: nat)
    requires at <= |polls|
    ensures at <= Await(polls, at).1 <= |polls|
    ensures Await(polls, at).0.Got? ==> at < Await(polls, at).1
    decreases |polls| - at
  {
    if at < |polls| {
      AwaitMoves(polls, at + 1);
    }
  }

  /** What each poll comes to, error numbers written out: 4 is EINTR, 11 is EWOULDBLOCK. */
  lemma AwaitCases(polls: seq<Poll>, at: nat)
    requires at <= |polls|
    ensures at == |polls| ==> Await(polls, at) == (HungUp, at)
    ensures at < |polls| && polls[at].Cancelled? ==> Await(polls, at) == (Dropped, at + 1)
    ensures at < |polls| && polls[at].NotReady? ==> Await(polls, at) == (Broken(polls[at].error), at + 1)
    ensures at < |polls| && polls[at].Ready? ==>
      var poll := polls[at];
      && (poll.readClosed || poll.writeClosed ==> Await(polls, at) == (HungUp, at + 1))
      && (!poll.readClosed && !poll.writeClosed ==>
            && (!poll.readable ==> Await(polls, at) == Await(polls, at + 1))
            && (poll.readable && poll.recv.Ok? ==> Await(polls, at) == (Got(poll.recv.value), at + 1))
            && (poll.readable && poll.recv.Err? ==>
                  var e := poll.recv.error;
                  Await(polls, at)
                  == if e == OtherErrno(4) || e == OtherErrno(11) || e == ENOENT then Await(polls, at + 1)
                     else (Broken(e), at + 1)))
  {
  }

  /** The kernel's side of answering: a continue with a value or an error in it is refused. */
  function SendAnswer(resp: Resp, answer: Option<Errno>): Option<Errno> {
    if resp.flags == CONTINUE && (resp.val != 0 || resp.error != 0) then Some(EINVAL) else answer
  }

  class RespBuf {
    var resp: Resp

    constructor ()
      ensures resp == ZERO_RESP
    {
      resp := ZERO_RESP;
    }
  }

  class NotifyListener {
    const polls: seq<Poll>
    /** The kernel's answer to the `k`-th response. */
    const answers: nat -> Option<Errno>
    var at: nat
    var notif: Notif
    var sent: nat
    var trace: seq<Event>

    constructor (polls: seq<Poll>, answers: nat -> Option<Errno>)
      ensures this.polls == polls && this.answers == answers && at == 0 && sent == 0 && trace == []
    {
      this.polls, this.answers := polls, answers;
      at, sent, trace, notif := 0, 0, [], ZERO_NOTIF;
    }

    predicate Valid()
      reads this
    {
      at <= |polls|
    }

    /** The kernel's side of receiving: a buffer that is not all zeroes is refused. */
    method RecvIoctl(recv: Result<Notif, Errno>) returns (r: Result<(), Errno>)
      modifies this`notif, this`trace
      ensures old(notif) != ZERO_NOTIF ==> r == Err(EINVAL) && notif == old(notif) && trace == old(trace)
      ensures old(notif) == ZERO_NOTIF && recv.Err? ==>
        r == Err(recv.error) && notif == old(notif) && trace == old(trace)
      ensures old(notif) == ZERO_NOTIF && recv.Ok? ==>
        r == Ok(()) && notif == recv.value && trace == old(trace) + [Received(recv.value.id)]
    {
      if notif != ZERO_NOTIF {
        return Err(EINVAL);
      }
      if recv.Err? {
        return Err(recv.error);
      }
      notif := recv.value;
      trace := trace + [Received(notif.id)];
      r := Ok(());
    }

    /** `notif_recv`: whatever is in the buffer, it is zeroed first, so the kernel refuses nothing because of
        it; without a notification the buffer stays zero. */
    method Receive(recv: Result<Notif, Errno>) returns (r: Result<(), Errno>)
      modifies this`notif, this`trace
      ensures recv.Ok? ==> r == Ok(()) && notif == recv.value && trace == old(trace) + [Received(recv.value.id)]
      ensures recv.Err? ==> r == Err(recv.error) && notif == ZERO_NOTIF && trace == old(trace)
    {
      notif := ZERO_NOTIF;
      r := RecvIoctl(recv);
    }

    /** `next`: the awaited notification is in the buffer. */
    method Next() returns (r: Awaited)
      requires Valid()
      modifies this`at, this`notif, this`trace
      ensures Valid() && (r, at) == Await(polls, old(at))
      ensures r.Got? ==> notif == r.notif
      ensures trace == old(trace) + (if r.Got? then [Received(r.notif.id)] else [])
    {
      while at < |polls|
        invariant at <= |polls| && Await(polls, at) == Await(polls, old(at)) && trace == old(trace)
        decreases |polls| - at
      {
        var poll := polls[at];
        at := at + 1;
        if poll.Cancelled? {
          return Dropped;
        }
        if poll.NotReady? {
          return Broken(poll.error);
        }
        if poll.readClosed || poll.writeClosed {
          return HungUp;
        }
        if !poll.readable {
          continue;
        }
        var received := Receive(poll.recv);
        match received {
          case Ok(_) => return Got(notif);
          case Err(e) =>
            if !Retried(e) {
              return Broken(e);
            }
        }
      }
      r := HungUp;
    }

    /** `send_continue`: one attempt, well-formed whatever was in the buffer; that the target is gone is
        not an error. */
    method SendContinue(id: nat, buf: RespBuf) returns (r: Result<(), Errno>)
      modifies this`sent, this`trace, buf
      ensures buf.resp == Resp(id, 0, 0, 1)
      ensures trace == old(trace) + [Continued(id)] && sent == old(sent) + 1
      ensures r == ContinueResult(answers(old(sent)))
    {
      buf.resp := ZERO_RESP;
      buf.resp := buf.resp.(id := id);
      buf.resp := buf.resp.(flags := CONTINUE);
      var answer := SendAnswer(buf.resp, answers(sent));
      sent := sent + 1;
      trace := trace + [Continued(id)];
      if answer.Some? {
        if answer.value == ENOENT {
          return Ok(());
        }
        return Err(answer.value);
      }
      r := Ok(());
    }
  }

  /** Only a target that is gone is no error. */
  lemma ContinueCases(e: Errno)
    ensures ContinueResult(None) == Ok(()) && ContinueResult(Some(ENOENT)) == Ok(())
    ensures e != ENOENT ==> ContinueResult(Some(e)) == Err(e)
  {
  }

  function ContinueResult(answer: Option<Errno>): Result<(), Errno> {
    if answer.None? || answer.value == ENOENT then Ok(()) else Err(answer.value)
  }

  // ---------------------------------------------------------------------------------------------
  // Serving one listener
  // ---------------------------------------------------------------------------------------------

  datatype Verdict = Accepts | Rejects(error: Errno) | Panics

  /** What a handler that was given some notifications says to one more. */
  type Verdicts = (seq<Notif>, Notif) -> Verdict

  /** How a task ends. One whose handler panics leaves the notification in its hands unanswered. */
  datatype TaskEnd =
    | Finished(handled: seq<Notif>)
    | TaskFailed(error: Errno)
    | TaskDropped
    | TaskPanicked(unanswered: Notif)

  /** Each notification received, handled and continued before the next one is received. */
  function Rounds(notifs: seq<Notif>): seq<Event> {
    if notifs == [] then []
    else
      var n := notifs[|notifs| - 1];
      Rounds(notifs[..|notifs| - 1]) + [Received(n.id), Handled(n.id), Continued(n.id)]
  }

  /** How serving goes on from `at`, when `handled` were handled and answered before: the end, and all
      that were answered. */
  function Served(
    polls: seq<Poll>, at: nat, answers: nat -> Option<Errno>, verdicts: Verdicts, handled: seq<Notif>)
    : (TaskEnd, seq<Notif>)
    requires at <= |polls|
    decreases |polls| - at
  {
    AwaitMoves(polls, at);
    var (awaited, at') := Await(polls, at);
    match awaited
    case HungUp => (Finished(handled), handled)
    case Broken(e) => (TaskFailed(e), handled)
    case Dropped => (TaskDropped, handled)
    case Got(n) =>
      match (verdicts(handled, n), ContinueResult(answers(|handled|)))
      case (Panics, _) => (TaskPanicked(n), handled)
      case (_, Err(e)) => (TaskFailed(e), handled + [n])
      case (Rejects(e), _) => (TaskFailed(e), handled + [n])
      case _ => Served(polls, at', answers, verdicts, handled + [n])
  }

  /** What a round comes to: a failed continue is the task's error before the handler's is. */
  lemma ServedCases(
    polls: seq<Poll>, at: nat, answers: nat -> Option<Errno>, verdicts: Verdicts, handled: seq<Notif>)
    requires at <= |polls|
    ensures var (awaited, at') := Await(polls, at);
      var end := Served(polls, at, answers, verdicts, handled).0;
      && (awaited.HungUp? ==> end == Finished(handled))
      && (awaited.Broken? ==> end == TaskFailed(awaited.error))
      && (awaited.Dropped? ==> end == TaskDropped)
      && (awaited.Got? ==>
            var verdict, answer := verdicts(handled, awaited.notif), answers(|handled|);
            && (verdict.Panics? ==> end == TaskPanicked(awaited.notif))
            && (!verdict.Panics? && answer.Some? && answer.value != ENOENT ==> end == TaskFailed(answer.value))
            && (verdict.Rejects? && (answer.None? || answer == Some(ENOENT)) ==> end == TaskFailed(verdict.error))
            && (verdict.Accepts? && (answer.None? || answer == Some(ENOENT)) ==>
                  at' <= |polls| && end == Served(polls, at', answers, verdicts, handled + [awaited.notif]).0))
  {
    AwaitMoves(polls, at);
  }

  /** What a task leaves open: the notification a panicking handler was given. */
  function Open(end: TaskEnd): seq<Event> {
    if end.TaskPanicked? then [Received(end.unanswered.id)] else []
  }

  /** The task spawned for a listener. What it did is whole rounds, however it ends, but for the one
      notification a panicking handler leaves unanswered. */
  method Serve(listener: NotifyListener, verdicts: Verdicts) returns (end: TaskEnd, ghost notifs: seq<Notif>)
    requires listener.Valid() && listener.at == 0 && listener.sent == 0 && listener.trace == []
    modifies listener
    ensures (end, notifs) == Served(listener.polls, 0, listener.answers, verdicts, [])
    ensures listener.trace == Rounds(notifs) + Open(end)
  {
    var buf := new RespBuf();
    var handled: seq<Notif> := [];
    while true
      invariant listener.Valid() && listener.sent == |handled| && listener.trace == Rounds(handled)
      invariant Served(listener.polls, listener.at, listener.answers, verdicts, handled)
             == Served(listener.polls, 0, listener.answers, verdicts, [])
      decreases |listener.polls| - listener.at
    {
      AwaitMoves(listener.polls, listener.at);
      var awaited := listener.Next();
      match awaited {
        case HungUp => return Finished(handled), handled;
        case Broken(e) => return TaskFailed(e), handled;
        case Dropped => return TaskDropped, handled;
        case Got(notify) =>
          var verdict := verdicts(handled, notify);
          if verdict.Panics? {
            return TaskPanicked(notify), handled;
          }
          listener.trace := listener.trace + [Handled(notify.id)];
          var answered := listener.SendContinue(notify.id, buf);
          RoundsAppend(handled, notify);
          if answered.Err? {
            return TaskFailed(answered.error), handled + [notify];
          }
          if verdict.Rejects? {
            return TaskFailed(verdict.error), handled + [notify];
          }
          handled := handled + [notify];
      }
    }
  }

  lemma RoundsAppend(notifs: seq<Notif>, n: Notif)
    ensures Rounds(notifs + [n]) == Rounds(notifs) + [Received(n.id), Handled(n.id), Continued(n.id)]
    ensures Rounds(notifs) + [Received(n.id)] + [Handled(n.id)] + [Continued(n.id)] == Rounds(notifs + [n])
  {
    assert (notifs + [n])[..|notifs|] == notifs;
  }

  /** Event by event: the k-th notification is received, handled and continued at 3k, 3k+1 and 3k+2, so
      none of them is unanswered when the next one is received, or when the task ends. */
  lemma {:induction false} RoundAt(notifs: seq<Notif>, k: nat)
    requires k < |notifs|
    ensures |Rounds(notifs)| == 3 * |notifs|
    ensures Rounds(notifs)[3 * k..3 * k + 3] == [Received(notifs[k].id), Handled(notifs[k].id), Continued(notifs[k].id)]
    decreases |notifs|
  {
    var init := notifs[..|notifs| - 1];
    if k < |init| {
      RoundAt(init, k);
      assert Rounds(notifs)[3 * k..3 * k + 3] == Rounds(init)[3 * k..3 * k + 3];
    } else {
      RoundsLength(init);
    }
  }

  lemma {:induction false} RoundsLength(notifs: seq<Notif>)
    ensures |Rounds(notifs)| == 3 * |notifs|
  {
    if notifs != [] {
      RoundsLength(notifs[..|notifs| - 1]);
    }
  }

  /** The notifications the kernel delivers before anything else happens than being delivered one. */
  function Delivered(polls: seq<Poll>): seq<Notif> {
    if polls == [] then []
    else if polls[0].Ready? && !polls[0].readClosed && !polls[0].writeClosed then
      if polls[0].readable && polls[0].recv.Ok? then [polls[0].recv.value] + Delivered(polls[1..])
      else if !polls[0].readable || Retried(polls[0].recv.error) then Delivered(polls[1..])
      else []
    else []
  }

  /** What waiting leaves of the script. */
  lemma {:induction false} AwaitDelivers(polls: seq<Poll>, at: nat)
    requires at <= |polls|
    ensures at <= Await(polls, at).1 <= |polls|
    ensures Await(polls, at).0.Got? ==>
      Delivered(polls[at..]) == [Await(polls, at).0.notif] + Delivered(polls[Await(polls, at).1..])
    ensures !Await(polls, at).0.Got? ==> Delivered(polls[at..]) == []
    decreases |polls| - at
  {
    if at < |polls| {
      assert polls[at..][0] == polls[at] && polls[at..][1..] == polls[at + 1..];
      AwaitDelivers(polls, at + 1);
    }
  }

  /** A task that finishes has handled every delivered notification, in the order of delivery; one that
      does not has handled the first of them, and a panic leaves the next one. */
  lemma {:induction false} ServesDelivered(
    polls: seq<Poll>, at: nat, answers: nat -> Option<Errno>, verdicts: Verdicts, handled: seq<Notif>)
    requires at <= |polls|
    ensures var (end, notifs) := Served(polls, at, answers, verdicts, handled);
      && notifs <= handled + Delivered(polls[at..])
      && (end.Finished? ==> end.handled == notifs == handled + Delivered(polls[at..]))
      && (end.TaskPanicked? ==> notifs + [end.unanswered] <= handled + Delivered(polls[at..]))
    decreases |polls| - at
  {
    hide Delivered, Await;
    AwaitMoves(polls, at);
    AwaitDelivers(polls, at);
    var (awaited, at') := Await(polls, at);
    if awaited.Got? {
      var n := awaited.notif;
      assert handled + Delivered(polls[at..]) == handled + [n] + Delivered(polls[at'..]);
      ServesDelivered(polls, at', answers, verdicts, handled + [n]);
    } else {
      assert handled + [] == handled;
    }
  }

  // ---------------------------------------------------------------------------------------------
  // Accepting listeners and joining their tasks
  // ---------------------------------------------------------------------------------------------

  /** What receiving a file descriptor comes to. */
  datatype Accept<T> = Fd(fd: T) | EndOfFile | AcceptFails(error: Errno)

  /** What comes of a script of receives: its fds up to the end of file, or the first error. A script that
      ends without either ends because the last sender is gone. */
  function Accepted<T>(script: seq<Accept<T>>): Result<seq<T>, Errno> {
    if script == [] then Ok([])
    else
      match script[0]
      case EndOfFile => Ok([])
      case AcceptFails(e) => Err(e)
      case Fd(fd) =>
        match Accepted(script[1..])
        case Err(e) => Err(e)
        case Ok(fds) => Ok([fd] + fds)
  }

  /** The loop that collects the descriptors of the chunks. */
  method ReceiveFds<T>(script: seq<Accept<T>>) returns (r: Result<seq<T>, Errno>)
    ensures r == Accepted(script)
  {
    var fds: seq<T> := [];
    assert script[0..] == script;
    if Accepted(script).Ok? {
      assert [] + Accepted(script).value == Accepted(script).value;
    }
    for i := 0 to |script|
      invariant match Accepted(script[i..])
                case Err(e) => Accepted(script) == Err(e)
                case Ok(rest) => Accepted(script) == Ok(fds + rest)
    {
      assert script[i..][1..] == script[i + 1..];
      match script[i] {
        case EndOfFile =>
          assert fds + [] == fds;
          return Ok(fds);
        case AcceptFails(e) => return Err(e);
        case Fd(fd) =>
          if Accepted(script[i + 1..]).Ok? {
            Shifted(fds, fd, Accepted(script[i + 1..]).value);
          }
          fds := fds + [fd];
      }
    }
    assert fds + [] == fds;
    r := Ok(fds);
  }

  /** The collected descriptors are those that came before the end of file, in order; the result is an
      error exactly when one comes before the end of file. */
  lemma {:induction false} AcceptedExactly<T>(script: seq<Accept<T>>)
    ensures match Accepted(script)
            case Ok(fds) =>
              && |fds| <= |script|
              && (forall i :: 0 <= i < |fds| ==> script[i] == Fd(fds[i]))
              && (|fds| < |script| ==> script[|fds|].EndOfFile?)
            case Err(e) =>
              exists k :: 0 <= k < |script| && script[k] == AcceptFails(e) && forall i :: 0 <= i < k ==> script[i].Fd?
  {
    if script != [] && script[0].Fd? {
      AcceptedExactly(script[1..]);
      if Accepted(script).Err? {
        var e := Accepted(script).error;
        var k :| 0 <= k < |script[1..]| && script[1..][k] == AcceptFails(e)
          && forall i :: 0 <= i < k ==> script[1..][i].Fd?;
        assert script[k + 1] == AcceptFails(e);
        forall i | 0 <= i < k + 1
          ensures script[i].Fd?
        {
          assert i > 0 ==> script[1..][i - 1] == script[i];
        }
      }
    } else if script != [] && script[0].AcceptFails? {
      assert script[0] == AcceptFails(Accepted(script).error);
    }
  }

  lemma Shifted<T>(before: seq<T>, one: T, rest: seq<T>)
    ensures before + ([one] + rest) == before + [one] + rest
  {
  }

  /** An accepted listener: the error if it cannot be registered, and its task's script. */
  datatype Accepting = Accepting(
    registers: Option<Errno>, polls: seq<Poll>, answers: nat -> Option<Errno>, verdicts: Verdicts)

  function TaskResult(a: Accepting): Result<seq<Notif>, Errno> {
    match Served(a.polls, 0, a.answers, a.verdicts, []).0
    case Finished(handled) => Ok(handled)
    case TaskFailed(e) => Err(e)
    case _ => Err(JOIN_ERROR)
  }

  /** A task that finishes is joined with everything its listener delivered, one that fails with its error;
      one that does neither is an error too. */
  lemma TaskResultIs(a: Accepting)
    ensures var end := Served(a.polls, 0, a.answers, a.verdicts, []).0;
      && (end.Finished? ==> TaskResult(a) == Ok(Delivered(a.polls)))
      && (end.TaskFailed? ==> TaskResult(a) == Err(end.error))
      && (end.TaskDropped? || end.TaskPanicked? ==> TaskResult(a).Err?)
  {
    hide Served, Delivered;
    ServesDelivered(a.polls, 0, a.answers, a.verdicts, []);
    assert a.polls[0..] == a.polls;
    assert [] + Delivered(a.polls) == Delivered(a.polls);
  }

  lemma TaskOk(a: Accepting)
    requires TaskResult(a).Ok?
    ensures TaskResult(a).value == Delivered(a.polls)
  {
    TaskResultIs(a);
  }

  /** What is delivered, poll by poll. */
  lemma DeliveredCases(n: Notif, rest: seq<Poll>, e: Errno, recv: Result<Notif, Errno>)
    ensures Delivered([]) == []
    ensures Delivered([Ready(false, false, true, Ok(n))] + rest) == [n] + Delivered(rest)
    ensures Delivered([Ready(false, false, false, recv)] + rest) == Delivered(rest)
    ensures Delivered([Ready(false, false, true, Err(e))] + rest)
         == if e == OtherErrno(4) || e == OtherErrno(11) || e == ENOENT then Delivered(rest) else []
    ensures Delivered([Ready(true, false, true, recv)] + rest) == []
    ensures Delivered([Ready(false, true, true, recv)] + rest) == []
    ensures Delivered([NotReady(e)] + rest) == [] && Delivered([Cancelled] + rest) == []
  {
    assert forall p: Poll :: ([p] + rest)[0] == p && ([p] + rest)[1..] == rest;
  }

  method RunTask(a: Accepting) returns (r: Result<seq<Notif>, Errno>)
    ensures r == TaskResult(a)
  {
    var listener := new NotifyListener(a.polls, a.answers);
    var end, notifs := Serve(listener, a.verdicts);
    match end {
      case Finished(handled) => return Ok(handled);
      case TaskFailed(e) => return Err(e);
      case _ => return Err(JOIN_ERROR);
    }
  }

  /** A listener that cannot be registered ends the accepting loop like a failed receive. */
  function Registered(script: seq<Accept<Accepting>>): (r: seq<Accept<Accepting>>)
    ensures |r| == |script|
    ensures forall i :: 0 <= i < |r| ==>
      r[i] == if script[i].Fd? && script[i].fd.registers.Some? then AcceptFails(script[i].fd.registers.value)
              else script[i]
  {
    seq(|script|, i requires 0 <= i < |script| =>
      if script[i].Fd? && script[i].fd.registers.Some? then AcceptFails(script[i].fd.registers.value) else script[i])
  }

  /** The accepting loop: the listeners whose tasks were spawned. */
  function Spawned(script: seq<Accept<Accepting>>): Result<seq<Accepting>, Errno> {
    Accepted(Registered(script))
  }

  /** The spawned tasks are those of the descriptors before the end of file, all of which were registered; the
      error is that of the first receive or registration that fails. */
  lemma SpawnedExactly(script: seq<Accept<Accepting>>)
    ensures match Spawned(script)
            case Ok(tasks) =>
              && |tasks| <= |script|
              && (forall i :: 0 <= i < |tasks| ==> script[i] == Fd(tasks[i]) && tasks[i].registers == None)
              && (|tasks| < |script| ==> script[|tasks|].EndOfFile?)
            case Err(e) =>
              exists k :: 0 <= k < |script|
                && (script[k] == AcceptFails(e) || (script[k].Fd? && script[k].fd.registers == Some(e)))
                && forall i :: 0 <= i < k ==> script[i].Fd? && script[i].fd.registers == None
  {
    var events := Registered(script);
    AcceptedExactly(events);
    if Spawned(script).Err? {
      var e := Spawned(script).error;
      var k :| 0 <= k < |events| && events[k] == AcceptFails(e) && forall i :: 0 <= i < k ==> events[i].Fd?;
      assert script[k] == AcceptFails(e) || (script[k].Fd? && script[k].fd.registers == Some(e));
      forall i | 0 <= i < k
        ensures script[i].Fd? && script[i].fd.registers == None
      {
        assert events[i].Fd?;
      }
    } else {
      var tasks := Spawned(script).value;
      forall i | 0 <= i < |tasks|
        ensures script[i] == Fd(tasks[i]) && tasks[i].registers == None
      {
        assert events[i] == Fd(tasks[i]);
      }
    }
  }

  /** Every task is joined once, in whatever order they end. */
  ghost predicate JoinOrder(order: seq<nat>, tasks: nat) {
    && |order| == tasks
    && (forall i :: 0 <= i < |order| ==> order[i] < tasks)
    && (forall i, j :: 0 <= i < j < |order| ==> order[i] != order[j])
  }

  function HandlersIn(order: seq<nat>, tasks: seq<Accepting>): (handlers: seq<seq<Notif>>)
    requires forall i :: 0 <= i < |order| ==> order[i] < |tasks| && TaskResult(tasks[order[i]]).Ok?
    ensures |handlers| == |order|
    ensures forall i :: 0 <= i < |order| ==> handlers[i] == TaskResult(tasks[order[i]]).value
  {
    seq(|order|, i requires 0 <= i < |order| => TaskResult(tasks[order[i]]).value)
  }

  /** The first task to end with an error ends with this one. */
  ghost predicate FirstFailure(order: seq<nat>, tasks: seq<Accepting>, e: Errno)
    requires JoinOrder(order, |tasks|)
  {
    exists k :: 0 <= k < |order| && TaskResult(tasks[order[k]]) == Err(e)
      && forall j :: 0 <= j < k ==> TaskResult(tasks[order[j]]).Ok?
  }

  /** `handling_loop`. `order` is the order in which the tasks end. */
  method HandlingLoop(script: seq<Accept<Accepting>>, order: seq<nat>) returns (r: Result<seq<seq<Notif>>, Errno>)
    requires Spawned(script).Ok? ==> JoinOrder(order, |Spawned(script).value|)
    ensures r.Ok? <==>
      Spawned(script).Ok? && forall k :: 0 <= k < |Spawned(script).value| ==> TaskResult(Spawned(script).value[k]).Ok?
    ensures r.Ok? ==> r.value == HandlersIn(order, Spawned(script).value)
    ensures r.Ok? ==>
      && |r.value| == |order|
      && forall j :: 0 <= j < |order| ==> r.value[j] == Delivered(Spawned(script).value[order[j]].polls)
    ensures r.Err? && Spawned(script).Err? ==> r.error == Spawned(script).error
    ensures r.Err? && Spawned(script).Ok? ==> FirstFailure(order, Spawned(script).value, r.error)
  {
    var tasks: seq<Accepting> := [];
    ghost var events := Registered(script);
    assert events[0..] == events;
    if Accepted(events).Ok? {
      assert [] + Accepted(events).value == Accepted(events).value;
    }
    var i := 0;
    while i < |script|
      invariant i <= |script|
      invariant match Accepted(events[i..])
                case Err(e) => Accepted(events) == Err(e)
                case Ok(rest) => Accepted(events) == Ok(tasks + rest)
    {
      assert events[i..][1..] == events[i + 1..];
      var accepted := script[i];
      if accepted.EndOfFile? {
        break;
      }
      if accepted.AcceptFails? {
        return Err(accepted.error);
      }
      if accepted.fd.registers.Some? {
        return Err(accepted.fd.registers.value);
      }
      if Accepted(events[i + 1..]).Ok? {
        Shifted(tasks, accepted.fd, Accepted(events[i + 1..]).value);
      }
      tasks := tasks + [accepted.fd];
      i := i + 1;
    }
    assert tasks + [] == tasks;
    assert Spawned(script) == Ok(tasks);
    hide Spawned, TaskResult;
    var handlers: seq<seq<Notif>> := [];
    for k := 0 to |order|
      invariant |handlers| == k
      invariant forall j :: 0 <= j < k ==> TaskResult(tasks[order[j]]) == Ok(handlers[j])
    {
      var joined := RunTask(tasks[order[k]]);
      if joined.Err? {
        return Err(joined.error);
      }
      handlers := handlers + [joined.value];
    }
    forall k | 0 <= k < |tasks|
      ensures TaskResult(tasks[k]).Ok?
    {
      var j := OrderReaches(order, |tasks|, k);
    }
    forall j | 0 <= j < |order|
      ensures handlers[j] == Delivered(tasks[order[j]].polls)
    {
      TaskOk(tasks[order[j]]);
    }
    r := Ok(handlers);
  }

  function Below(n: nat): (numbers: set<nat>)
    ensures |numbers| == n && forall x: nat :: x in numbers <==> x < n
  {
    if n == 0 then {} else Below(n - 1) + {n - 1}
  }

  /** A join order leaves no task out. */
  lemma OrderReaches(order: seq<nat>, tasks: nat, k: nat) returns (j: nat)
    requires JoinOrder(order, tasks) && k < tasks
    ensures j < |order| && order[j] == k
  {
    if k !in order {
      DistinctCount(order);
      assert k in Below(tasks);
      assert |Below(tasks) - {k}| == tasks - 1;
      SubsetIsSmaller(Elements(order), Below(tasks) - {k});
      assert false;
    }
    j :| 0 <= j < |order| && order[j] == k;
  }

  function Elements(order: seq<nat>): (elements: set<nat>)
    ensures forall x :: x in elements <==> x in order
  {
    if order == [] then {} else Elements(order[1..]) + {order[0]}
  }

  lemma {:induction false} DistinctCount(order: seq<nat>)
    requires forall i, j :: 0 <= i < j < |order| ==> order[i] != order[j]
    ensures |Elements(order)| == |order|
  {
    if order != [] {
      DistinctCount(order[1..]);
      assert order[0] !in order[1..];
    }
  }

  function Picked<T>(order: seq<nat>, values: seq<T>): (picked: seq<T>)
    requires forall i :: 0 <= i < |order| ==> order[i] < |values|
    ensures |picked| == |order| && forall i :: 0 <= i < |order| ==> picked[i] == values[order[i]]
  {
    seq(|order|, i requires 0 <= i < |order| => values[order[i]])
  }

  lemma OmitPicked<T>(b: seq<nat>, j: nat, values: seq<T>)
    requires j < |b| && forall i :: 0 <= i < |b| ==> b[i] < |values|
    ensures |Omit(b, j)| == |b| - 1
    ensures forall i :: 0 <= i < |Omit(b, j)| ==> Omit(b, j)[i] < |values|
    ensures multiset(Omit(b, j)) == multiset(b) - multiset{b[j]}
    ensures multiset(Picked(b, values)) == multiset(Picked(Omit(b, j), values)) + multiset{values[b[j]]}
  {
    OmitMultiset(b, j);
    OmitMultiset(Picked(b, values), j);
    assert Picked(Omit(b, j), values) == Omit(Picked(b, values), j);
  }

  lemma {:induction false} PickedInAnyOrder<T>(a: seq<nat>, b: seq<nat>, values: seq<T>)
    requires forall i :: 0 <= i < |a| ==> a[i] < |values|
    requires forall i :: 0 <= i < |b| ==> b[i] < |values|
    requires multiset(a) == multiset(b)
    ensures multiset(Picked(a, values)) == multiset(Picked(b, values))
    decreases |a|
  {
    hide Picked;
    if a == [] {
      assert |multiset(b)| == 0;
    } else {
      assert a[0] in multiset(b);
      var j :| 0 <= j < |b| && b[j] == a[0];
      OmitPicked(a, 0, values);
      OmitPicked(b, j, values);
      PickedInAnyOrder(Omit(a, 0), Omit(b, j), values);
    }
  }

  lemma {:induction false} CountInDistinct(order: seq<nat>, k: nat)
    requires forall i, j :: 0 <= i < j < |order| ==> order[i] != order[j]
    ensures multiset(order)[k] == if k in order then 1 else 0
  {
    if order != [] {
      CountInDistinct(order[1..], k);
      assert order == [order[0]] + order[1..];
    }
  }

  lemma JoinOrdersPermute(a: seq<nat>, b: seq<nat>, tasks: nat)
    requires JoinOrder(a, tasks) && JoinOrder(b, tasks)
    ensures multiset(a) == multiset(b)
  {
    forall k: nat
      ensures multiset(a)[k] == multiset(b)[k]
    {
      CountInDistinct(a, k);
      CountInDistinct(b, k);
      if k < tasks {
        var i := OrderReaches(a, tasks, k);
        var j := OrderReaches(b, tasks, k);
      }
    }
  }

  /** Whatever the order in which tasks end, each task's handler is returned exactly once. */
  lemma HandlersOnce(a: seq<nat>, b: seq<nat>, tasks: seq<Accepting>)
    requires JoinOrder(a, |tasks|) && JoinOrder(b, |tasks|)
    requires forall k :: 0 <= k < |tasks| ==> TaskResult(tasks[k]).Ok?
    ensures multiset(HandlersIn(a, tasks)) == multiset(HandlersIn(b, tasks))
  {
    hide TaskResult;
    var values := seq(|tasks|, k requires 0 <= k < |tasks| => TaskResult(tasks[k]).value);
    JoinOrdersPermute(a, b, |tasks|);
    PickedInAnyOrder(a, b, values);
    assert HandlersIn(a, tasks) == Picked(a, values);
    assert HandlersIn(b, tasks) == Picked(b, values);
  }
}
