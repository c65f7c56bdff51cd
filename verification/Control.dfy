// The control queue and the live sockets. Every method below is one atomic step of one
// thread, so a sequence of calls is an interleaving of the submitting threads, the
// socket handlers and the control thread.
module Control {
  import opened Wrappers
  import Text

  const LIMIT: nat := 64

  /** A request, or a snapshot for a socket. */
  datatype Job = Job(id: nat, socket: Option<nat>)

  /** How far the one holder of a socket's busy flag has come. */
  datatype Stage =
    | Free
    | Won                  // the handler has set the flag and not yet submitted
    | Pending              // submitted, not yet answered
    | Replying             // the reply has been called
    | Numbered(n: nat)     // the reply has drawn its number
    | Sent                 // sent, or found the peer gone

  /** What has happened to a socket. */
  datatype Mark =
    | Compared(ack: nat, alone: bool)   // a message passed the comparison; alone if the flag was clear and no other was pending
    | Granted(comparison: nat, n: nat)  // the exchange after that comparison found the flag clear: snapshot `n`
    | Drew(n: nat)                      // a reply drew its number

  datatype Socket = Socket(
    busy: bool, sequence: nat, connected: bool,
    compared: seq<nat>,          // the marks of comparisons whose exchange is still to come
    stage: Stage,
    granted: nat,                // exchanges that found the flag clear
    delivered: seq<nat>,         // numbers sent, in order
    marks: seq<Mark>)

  datatype Worker = Idle | Running(job: Job) | Answering(job: Job)

  function UpTo(n: nat): (s: seq<nat>)
    ensures |s| == n && forall i | 0 <= i < n :: s[i] == i + 1
  {
    seq(n, i requires 0 <= i < n => i + 1)
  }

  lemma NextUpTo(n: nat)
    ensures UpTo(n + 1) == UpTo(n) + [n + 1]
  {
  }

  /** One socket: at most one snapshot is outstanding, and while the peer is there it has been
      sent exactly 1, 2, 3, and so on. */
  ghost predicate SocketOk(s: Socket) {
    && (s.busy <==> s.stage != Free)
    && s.granted == s.sequence + (if s.stage.Won? || s.stage.Pending? || s.stage.Replying? then 1 else 0)
    && (s.stage.Numbered? ==> s.stage.n == s.sequence >= 1)
    && s.delivered == UpTo(|s.delivered|)
    && |s.delivered| <= s.sequence - (if s.stage.Numbered? then 1 else 0)
    && (s.connected ==> |s.delivered| == s.sequence - (if s.stage.Numbered? then 1 else 0))
    && Remembered(s.marks, s.sequence) && Known(s.marks, s.compared) && Orderly(s.marks, s.compared, s.busy)
  }

  const FRESH: Socket := Socket(false, 0, true, [], Free, 0, [], [])

  // ---- Acknowledgements ----

  function Drawn(marks: seq<Mark>): nat {
    if marks == [] then 0 else Drawn(marks[..|marks| - 1]) + if marks[|marks| - 1].Drew? then 1 else 0
  }

  /** Every mark names the number its socket stood at: an ack is the last number drawn, a snapshot
      granted or a number drawn is the next one. */
  ghost predicate MarkOk(marks: seq<Mark>, i: nat)
    requires i < |marks|
  {
    match marks[i]
    case Compared(ack, _) => ack == Drawn(marks[..i])
    case Granted(c, n) => c < i && marks[c].Compared? && n == Drawn(marks[..i]) + 1
    case Drew(n) => n == Drawn(marks[..i]) + 1
  }

  ghost predicate Remembered(marks: seq<Mark>, sequence: nat) {
    Drawn(marks) == sequence && forall i | 0 <= i < |marks| :: MarkOk(marks, i)
  }

  ghost predicate Known(marks: seq<Mark>, compared: seq<nat>) {
    forall j | 0 <= j < |compared| :: compared[j] < |marks| && marks[compared[j]].Compared?
  }

  /** A message compared while the flag was clear and no other was pending, and none compared since. */
  predicate Alone(marks: seq<Mark>, c: nat, until: nat)
    requires c < until <= |marks|
  {
    marks[c].Compared? && marks[c].alone && forall k | c < k < until :: !marks[k].Compared?
  }

  /** Nothing comes between such a comparison and its exchange. */
  ghost predicate Orderly(marks: seq<Mark>, compared: seq<nat>, busy: bool) {
    && (forall j | 0 <= j < |compared| && compared[j] < |marks| && Alone(marks, compared[j], |marks|) ::
          compared == [|marks| - 1] && !busy)
    && (forall i | 0 <= i < |marks| && marks[i].Granted? && marks[i].comparison < i && Alone(marks, marks[i].comparison, i) ::
          marks[i].comparison == i - 1)
  }

  lemma Remember(marks: seq<Mark>, m: Mark, sequence: nat, sequence': nat)
    requires Remembered(marks, sequence) && sequence' == sequence + if m.Drew? then 1 else 0
    requires match m
             case Compared(ack, _) => ack == sequence
             case Granted(c, n) => c < |marks| && marks[c].Compared? && n == sequence + 1
             case Drew(n) => n == sequence + 1
    ensures Remembered(marks + [m], sequence')
  {
    var marks' := marks + [m];
    assert marks'[..|marks|] == marks;
    forall i | 0 <= i < |marks|
      ensures MarkOk(marks', i)
    {
      assert marks'[..i] == marks[..i] && MarkOk(marks, i);
    }
  }

  lemma {:induction false} DrawnSince(marks: seq<Mark>, from: nat, until: nat)
    requires from <= until <= |marks|
    ensures Drawn(marks[..from]) <= Drawn(marks[..until])
    ensures Drawn(marks[..from]) == Drawn(marks[..until]) <==> forall k | from <= k < until :: !marks[k].Drew?
  {
    if from < until {
      DrawnSince(marks, from, until - 1);
      assert marks[..until][..until - 1] == marks[..until - 1];
    }
  }

  /** A granted snapshot `n` answers a message that acknowledged `n - 1` exactly if no reply of the
      socket drew a number between the message's comparison and its exchange. */
  lemma FreshExactly(marks: seq<Mark>, sequence: nat, i: nat)
    requires Remembered(marks, sequence) && i < |marks| && marks[i].Granted?
    ensures var c := marks[i].comparison;
            && c < i && marks[c].Compared? && marks[c].ack <= marks[i].n - 1
            && (marks[c].ack == marks[i].n - 1 <==> forall k | c < k < i :: !marks[k].Drew?)
  {
    var c := marks[i].comparison;
    assert MarkOk(marks, i) && MarkOk(marks, c);
    DrawnSince(marks, c, i);
    assert !marks[c].Drew?;
  }

  /** A message compared while the flag is clear and no other is pending is answered fresh, if none
      other is compared before its exchange. */
  lemma FreshWhenAlone(s: Socket, i: nat)
    requires SocketOk(s) && i < |s.marks| && s.marks[i].Granted? && s.marks[i].comparison < i
    requires Alone(s.marks, s.marks[i].comparison, i)
    ensures s.marks[i].n >= 1 && s.marks[s.marks[i].comparison].ack == s.marks[i].n - 1
  {
    FreshExactly(s.marks, s.sequence, i);
  }

  /** One more mark leaves the orderly ones so, unless it cuts in. */
  lemma OneMoreMark(marks: seq<Mark>, m: Mark, compared: seq<nat>, busy: bool, compared': seq<nat>, busy': bool)
    requires Orderly(marks, compared, busy) && Known(marks, compared)
    requires match m
             case Compared(_, alone) => compared' == compared + [|marks|] && busy' == busy && (alone ==> compared == [] && !busy)
             case Granted(c, _) =>
               !busy && (exists j :: 0 <= j < |compared| && c == compared[j] && compared' == compared[..j] + compared[j + 1..])
             case Drew(_) => busy && compared' == compared && busy'
    ensures Orderly(marks + [m], compared', busy')
  {
    var marks' := marks + [m];
    forall j | 0 <= j < |compared'| && compared'[j] < |marks'| && Alone(marks', compared'[j], |marks'|)
      ensures compared' == [|marks'| - 1] && !busy'
    {
      if compared'[j] < |marks| {
        AloneBefore(marks, m, compared'[j], |marks|);
        assert !m.Compared? by { assert marks'[|marks|] == m; }
        StillPending(compared, compared', compared'[j], m, |marks|);
      }
    }
    forall i | 0 <= i < |marks'| && marks'[i].Granted? && marks'[i].comparison < i && Alone(marks', marks'[i].comparison, i)
      ensures marks'[i].comparison == i - 1
    {
      AloneBefore(marks, m, marks'[i].comparison, i);
    }
  }

  lemma AloneBefore(marks: seq<Mark>, m: Mark, c: nat, until: nat)
    requires c < until <= |marks|
    ensures Alone(marks + [m], c, until) <==> Alone(marks, c, until)
    ensures until == |marks| ==> Alone(marks + [m], c, until + 1) ==> Alone(marks, c, until)
  {
    assert forall k | 0 <= k < |marks| :: (marks + [m])[k] == marks[k];
  }

  /** The only pending comparison cannot stay behind when one is taken away. */
  lemma StillPending(compared: seq<nat>, compared': seq<nat>, c: nat, m: Mark, n: nat)
    requires c in compared' && c < n
    requires match m
             case Compared(_, _) => compared' == compared + [n]
             case Granted(d, _) =>
               exists j :: 0 <= j < |compared| && d == compared[j] && compared' == compared[..j] + compared[j + 1..]
             case Drew(_) => compared' == compared
    ensures c in compared && (m.Granted? ==> |compared| > 1)
  {
  }

  /** The first step of a message. */
  function AfterCompare(s: Socket): Socket {
    s.(compared := s.compared + [|s.marks|], marks := s.marks + [Compared(s.sequence, !s.busy && s.compared == [])])
  }

  /** The second, for the `i`th of the pending comparisons. */
  function AfterExchange(s: Socket, i: nat): Socket
    requires i < |s.compared|
  {
    var rest := s.compared[..i] + s.compared[i + 1..];
    if s.busy then s.(compared := rest)
    else s.(busy := true, compared := rest, stage := Won, granted := s.granted + 1,
            marks := s.marks + [Granted(s.compared[i], s.granted + 1)])
  }

  function AfterNumber(s: Socket): Socket {
    s.(sequence := s.sequence + 1, stage := Numbered(s.sequence + 1), marks := s.marks + [Drew(s.sequence + 1)])
  }

  lemma CompareOk(s: Socket)
    requires SocketOk(s)
    ensures SocketOk(AfterCompare(s))
  {
    hide Remembered, Orderly, UpTo;
    var m := Compared(s.sequence, !s.busy && s.compared == []);
    Remember(s.marks, m, s.sequence, s.sequence);
    OneMoreMark(s.marks, m, s.compared, s.busy, AfterCompare(s).compared, s.busy);
  }

  lemma ExchangeOk(s: Socket, i: nat)
    requires SocketOk(s) && i < |s.compared|
    ensures SocketOk(AfterExchange(s, i))
    ensures s.stage.Pending? ==> AfterExchange(s, i).stage.Pending?
    ensures InReply(s.stage) ==> InReply(AfterExchange(s, i).stage)
  {
    hide Remembered, UpTo, Alone;
    var rest := s.compared[..i] + s.compared[i + 1..];
    if s.busy {
      assert forall j | 0 <= j < |rest| :: rest[j] in s.compared;
    } else {
      hide Orderly;
      var m := Granted(s.compared[i], s.granted + 1);
      Remember(s.marks, m, s.sequence, s.sequence);
      OneMoreMark(s.marks, m, s.compared, s.busy, rest, true);
    }
  }

  lemma Exchanged(s: Socket, i: nat)
    requires i < |s.compared|
    ensures var rest := s.compared[..i] + s.compared[i + 1..];
            AfterExchange(s, i) ==
            if s.busy then s.(compared := rest)
            else Socket(true, s.sequence, s.connected, rest, Won, s.granted + 1, s.delivered,
                        s.marks + [Granted(s.compared[i], s.granted + 1)])
  {
  }

  lemma NumberOk(s: Socket)
    requires SocketOk(s) && s.stage.Replying?
    ensures SocketOk(AfterNumber(s))
  {
    hide Remembered, Orderly, UpTo;
    var m := Drew(s.sequence + 1);
    Remember(s.marks, m, s.sequence, s.sequence + 1);
    OneMoreMark(s.marks, m, s.compared, s.busy, s.compared, s.busy);
  }

  /** An ack is compared as text, and a message without one acks "0". */
  predicate Acks(ack: Option<string>, sequence: nat) {
    if ack.Some? then ack.value == Text.Decimal(sequence) else Text.Decimal(sequence) == "0"
  }

  // ---- Sockets and jobs ----

  /** Every job of the whole is in one of the two parts, as often. */
  ghost predicate Parts(whole: seq<Job>, a: seq<Job>, b: seq<Job>) {
    multiset(whole) == multiset(a) + multiset(b)
  }

  lemma PartsGrow(whole: seq<Job>, a: seq<Job>, b: seq<Job>, j: Job)
    requires Parts(whole, a, b)
    ensures Parts(whole + [j], a + [j], b) && Parts(whole + [j], a, b + [j])
  {
  }

  ghost predicate AllOk(sockets: seq<Socket>) {
    forall s | 0 <= s < |sockets| :: SocketOk(sockets[s])
  }

  ghost predicate WaitsFor(sockets: seq<Socket>, j: Job) {
    j.socket.Some? ==> j.socket.value < |sockets| && sockets[j.socket.value].stage.Pending?
  }

  /** Every unanswered snapshot is what its socket's flag stands for, and no socket has two. */
  ghost predicate Awaited(sockets: seq<Socket>, waiting: seq<Job>) {
    && (forall i | 0 <= i < |waiting| :: WaitsFor(sockets, waiting[i]))
    && (forall i, k | 0 <= i < k < |waiting| :: waiting[i].socket.Some? ==> waiting[i].socket != waiting[k].socket)
  }

  /** While the control thread is inside a reply, the socket is too. */
  ghost predicate Held(sockets: seq<Socket>, worker: Worker) {
    worker.Answering? && worker.job.socket.Some? ==>
      && worker.job.socket.value < |sockets|
      && InReply(sockets[worker.job.socket.value].stage)
  }

  predicate InReply(stage: Stage) {
    stage.Replying? || stage.Numbered? || stage.Sent?
  }

  /** A step of one socket that neither starts nor ends a wait. */
  lemma SocketStep(sockets: seq<Socket>, s: nat, t: Socket, waiting: seq<Job>, worker: Worker)
    requires AllOk(sockets) && Awaited(sockets, waiting) && Held(sockets, worker)
    requires s < |sockets| && SocketOk(t) && (sockets[s].stage.Pending? ==> t.stage.Pending?)
    requires InReply(sockets[s].stage) ==> InReply(t.stage) || !(worker.Answering? && worker.job.socket == Some(s))
    ensures AllOk(sockets[s := t]) && Awaited(sockets[s := t], waiting) && Held(sockets[s := t], worker)
  {
    hide SocketOk;
    forall i | 0 <= i < |waiting|
      ensures WaitsFor(sockets[s := t], waiting[i])
    {
      assert WaitsFor(sockets, waiting[i]);
    }
  }

  /** A wait starts: the socket had none. */
  lemma WaitStarts(sockets: seq<Socket>, s: nat, t: Socket, waiting: seq<Job>, j: Job, worker: Worker)
    requires AllOk(sockets) && Awaited(sockets, waiting) && Held(sockets, worker)
    requires s < |sockets| && sockets[s].stage.Won? && SocketOk(t) && t.stage.Pending? && j.socket == Some(s)
    ensures AllOk(sockets[s := t]) && Awaited(sockets[s := t], waiting + [j]) && Held(sockets[s := t], worker)
  {
    hide SocketOk;
    forall i | 0 <= i < |waiting|
      ensures WaitsFor(sockets[s := t], waiting[i]) && waiting[i].socket != j.socket
    {
      assert WaitsFor(sockets, waiting[i]);
    }
  }

  /** A wait ends: no other job waits for the socket. */
  lemma WaitEnds(sockets: seq<Socket>, s: nat, t: Socket, waiting: seq<Job>)
    requires AllOk(sockets) && Awaited(sockets, waiting) && waiting != []
    requires s < |sockets| && waiting[0].socket == Some(s) && SocketOk(t)
    ensures AllOk(sockets[s := t]) && Awaited(sockets[s := t], waiting[1..])
  {
    hide SocketOk;
    forall i | 0 <= i < |waiting| - 1
      ensures WaitsFor(sockets[s := t], waiting[1..][i])
    {
      assert WaitsFor(sockets, waiting[i + 1]) && waiting[0].socket != waiting[i + 1].socket;
    }
  }

  lemma FirstWaits(sockets: seq<Socket>, waiting: seq<Job>)
    requires Awaited(sockets, waiting) && waiting != [] && waiting[0].socket.Some? && AllOk(sockets)
    ensures waiting[0].socket.value < |sockets| && sockets[waiting[0].socket.value].stage.Pending?
    ensures SocketOk(sockets[waiting[0].socket.value].(stage := Replying))
  {
    assert WaitsFor(sockets, waiting[0]);
  }

  lemma NoWaitEnds(sockets: seq<Socket>, waiting: seq<Job>)
    requires Awaited(sockets, waiting) && waiting != []
    ensures Awaited(sockets, waiting[1..])
  {
    forall i | 0 <= i < |waiting| - 1
      ensures WaitsFor(sockets, waiting[1..][i])
    {
      assert WaitsFor(sockets, waiting[i + 1]);
    }
  }

  class ControlPlane {
    var tasks: seq<Job>
    var worker: Worker
    var sockets: seq<Socket>
    var stopped: bool
    var issued: nat
    ghost var submitted: seq<Job>
    ghost var accepted: seq<Job>
    ghost var refused: seq<Job>     // answered on the spot, queue full
    ghost var finished: seq<Job>    // answered by the control thread, in order
    ghost var discarded: seq<Job>   // dropped at shutdown
    ghost var replies: seq<Job>     // every call of a reply

    ghost function Current(): seq<Job>
      reads `worker
    {
      if worker.Running? then [worker.job] else []
    }

    /** Accepted and not answered. */
    ghost function Unanswered(): seq<Job>
      reads `worker, `discarded, `tasks
    {
      Current() + discarded + tasks
    }

    /** First in, first out, within the limit. */
    ghost predicate Queued()
      reads `tasks, `worker, `stopped, `accepted, `finished, `discarded
    {
      && |tasks| <= LIMIT && accepted == finished + Unanswered()
      && (!stopped ==> discarded == [])
      && (stopped ==> worker.Idle?)
    }

    /** Every submitted job is accepted or refused, and replied to as often as it is finished or refused. */
    ghost predicate Accounted()
      reads `issued, `submitted, `accepted, `refused, `finished, `replies
    {
      && issued == |submitted| && (forall i | 0 <= i < |submitted| :: submitted[i].id == i)
      && Parts(submitted, accepted, refused)
      && Parts(replies, finished, refused)
    }

    ghost predicate Handshakes()
      reads `sockets, `worker, `discarded, `tasks
    {
      AllOk(sockets) && Awaited(sockets, Unanswered()) && Held(sockets, worker)
    }

    ghost predicate Valid()
      reads this
    {
      Queued() && Accounted() && Handshakes()
    }

    constructor ()
      ensures Valid() && tasks == [] && worker == Idle && sockets == [] && !stopped
      ensures submitted == accepted == refused == finished == discarded == replies == []
    {
      tasks, worker, sockets, stopped, issued := [], Idle, [], false, 0;
      submitted, accepted, refused, finished, discarded, replies := [], [], [], [], [], [];
    }

    /** Under the mutex: a full queue is answered at once, otherwise the job goes to the back. */
    method Submit(socket: Option<nat>) returns (ok: bool)
      requires Queued() && Accounted()
      modifies `tasks, `issued, `submitted, `accepted, `refused, `replies
      ensures Queued() && Accounted() && ok == (old(|tasks|) < 64)
      ensures Unanswered() == old(Unanswered()) + if ok then [Job(|old(submitted)|, socket)] else []
      ensures var job := Job(|old(submitted)|, socket);
              && submitted == old(submitted) + [job]
              && tasks == (if ok then old(tasks) + [job] else old(tasks))
              && refused == (if ok then old(refused) else old(refused) + [job])
              && replies == (if ok then old(replies) else old(replies) + [job])
    {
      hide Parts, ControlPlane.Queued, ControlPlane.Unanswered;
      assert Unanswered() == Unanswered() + [];
      var job := Job(issued, socket);
      PartsGrow(submitted, accepted, refused, job);
      PartsGrow(replies, finished, refused, job);
      issued := issued + 1;
      submitted := submitted + [job];
      if |tasks| >= LIMIT {
        refused, replies := refused + [job], replies + [job];
        return false;
      }
      Accept(job);
      return true;
    }

    method Accept(job: Job)
      requires Queued() && |tasks| < LIMIT
      modifies `tasks, `accepted
      ensures Queued() && Unanswered() == old(Unanswered()) + [job]
      ensures accepted == old(accepted) + [job] && tasks == old(tasks) + [job]
    {
      accepted := accepted + [job];
      tasks := tasks + [job];
    }

    method Request() returns (ok: bool)
      requires Valid()
      modifies this
      ensures Valid() && ok == (old(|tasks|) < 64) && sockets == old(sockets) && worker == old(worker)
      ensures stopped == old(stopped) && submitted == old(submitted) + [Job(|old(submitted)|, None)]
    {
      hide ControlPlane.Queued, ControlPlane.Accounted, ControlPlane.Unanswered;
      ghost var waiting := Unanswered();
      ok := Submit(None);
      assert forall i | 0 <= i < |waiting| :: Unanswered()[i] == waiting[i];
    }

    method Connect()
      requires Valid()
      modifies `sockets
      ensures Valid() && sockets == old(sockets) + [Socket(false, 0, true, [], Free, 0, [], [])]
    {
      hide ControlPlane.Queued, ControlPlane.Accounted;
      assert forall i | 0 <= i < |Unanswered()| :: WaitsFor(sockets, Unanswered()[i]);
      sockets := sockets + [FRESH];
      assert forall i | 0 <= i < |Unanswered()| :: WaitsFor(sockets, Unanswered()[i]);
    }

    method Disconnect(s: nat)
      requires Valid() && s < |sockets|
      modifies `sockets
      ensures Valid() && sockets == old(sockets)[s := old(sockets)[s].(connected := false)]
    {
      hide ControlPlane.Queued, ControlPlane.Accounted;
      SocketStep(sockets, s, sockets[s].(connected := false), Unanswered(), worker);
      sockets := sockets[s := sockets[s].(connected := false)];
    }

    /** First step of a message: it passes if it acks the number the socket stands at. */
    method Compare(s: nat, ack: Option<string>)
      requires Valid() && s < |sockets|
      modifies `sockets
      ensures Valid()
      ensures !Acks(ack, old(sockets)[s].sequence) ==> sockets == old(sockets)
      ensures Acks(ack, old(sockets)[s].sequence) ==>
        var was := old(sockets)[s];
        sockets == old(sockets)[s := was.(compared := was.compared + [|was.marks|],
          marks := was.marks + [Compared(was.sequence, !was.busy && was.compared == [])])]
    {
      hide ControlPlane.Queued, ControlPlane.Accounted, Text.Decimal, SocketOk;
      CompareOk(sockets[s]);
      SocketStep(sockets, s, AfterCompare(sockets[s]), Unanswered(), worker);
      var text := if ack.Some? then ack.value else "0";
      if text == Text.Decimal(sockets[s].sequence) {
        sockets := sockets[s := AfterCompare(sockets[s])];
      }
    }

    /** Second step: the exchange of one of the messages compared. A lost one is over and leaves the
        socket alone; a won one sets the flag and is promised the next number. */
    method Exchange(s: nat, i: nat) returns (won: bool)
      requires Valid() && s < |sockets| && i < |sockets[s].compared|
      modifies `sockets
      ensures Valid() && won == !old(sockets)[s].busy
      ensures var was := old(sockets)[s];
              var rest := was.compared[..i] + was.compared[i + 1..];
              sockets == old(sockets)[s :=
                if was.busy then was.(compared := rest)
                else Socket(true, was.sequence, was.connected, rest, Won, was.granted + 1, was.delivered,
                            was.marks + [Granted(was.compared[i], was.granted + 1)])]
    {
      won := !sockets[s].busy;
      hide ControlPlane.Queued, ControlPlane.Accounted, ControlPlane.Unanswered, SocketOk, AfterExchange, InReply;
      ExchangeOk(sockets[s], i);
      Exchanged(sockets[s], i);
      assert SocketOk(sockets[s]);
      SocketStep(sockets, s, AfterExchange(sockets[s], i), Unanswered(), worker);
      sockets := sockets[s := AfterExchange(sockets[s], i)];
    }

    /** Third step: the snapshot is submitted, or refused and the reply called by the handler itself. */
    method SubmitSnapshot(s: nat)
      requires Valid() && s < |sockets| && sockets[s].stage.Won?
      modifies this
      ensures Valid() && worker == old(worker) && stopped == old(stopped)
      ensures sockets == old(sockets)[s := old(sockets)[s].(stage := if old(|tasks|) < 64 then Pending else Replying)]
      ensures var job := Job(|old(submitted)|, Some(s));
              && submitted == old(submitted) + [job]
              && tasks == (if old(|tasks|) < 64 then old(tasks) + [job] else old(tasks))
              && refused == (if old(|tasks|) < 64 then old(refused) else old(refused) + [job])
    {
      hide ControlPlane.Queued, ControlPlane.Accounted, ControlPlane.Unanswered;
      ghost var waiting, id := Unanswered(), |submitted|;
      var ok := Submit(Some(s));
      var now := sockets[s].(stage := if ok then Pending else Replying);
      if ok {
        WaitStarts(sockets, s, now, waiting, Job(id, Some(s)), worker);
      } else {
        SocketStep(sockets, s, now, waiting, worker);
      }
      sockets := sockets[s := now];
    }

    /** The control thread takes the oldest job. */
    method Take()
      requires Valid() && !stopped && worker.Idle? && tasks != []
      modifies `tasks, `worker
      ensures Valid() && worker == Running(old(tasks)[0]) && tasks == old(tasks)[1..]
    {
      ghost var waiting := Unanswered();
      worker := Running(tasks[0]);
      tasks := tasks[1..];
      assert Unanswered() == waiting;
    }

    /** The job's result, or its error, is handed to its reply. */
    method Answer()
      requires Valid() && worker.Running?
      modifies `worker, `sockets, `finished, `replies
      ensures Valid() && finished == old(finished) + [old(worker).job] && replies == old(replies) + [old(worker).job]
      ensures var job := old(worker).job;
              if job.socket.None? then worker == Idle && sockets == old(sockets)
              else
                && worker == Answering(job) && job.socket.value < |old(sockets)|
                && sockets == old(sockets)[job.socket.value := old(sockets)[job.socket.value].(stage := Replying)]
    {
      hide ControlPlane.Queued, ControlPlane.Accounted, ControlPlane.Unanswered, AllOk, Awaited, SocketOk;
      var job := worker.job;
      ghost var waiting := Unanswered();
      Finish();
      if job.socket.Some? {
        var s := job.socket.value;
        FirstWaits(sockets, waiting);
        WaitEnds(sockets, s, sockets[s].(stage := Replying), waiting);
        sockets := sockets[s := sockets[s].(stage := Replying)];
      } else {
        NoWaitEnds(sockets, waiting);
      }
    }

    method Finish()
      requires Queued() && Accounted() && worker.Running?
      modifies `worker, `finished, `replies
      ensures Queued() && Accounted()
      ensures old(Unanswered()) == [old(worker).job] + Unanswered() && Unanswered() == old(Unanswered())[1..]
      ensures finished == old(finished) + [old(worker).job] && replies == old(replies) + [old(worker).job]
      ensures worker == if old(worker).job.socket.Some? then Answering(old(worker).job) else Idle
    {
      hide Parts;
      var job := worker.job;
      PartsGrow(replies, finished, refused, job);
      finished, replies := finished + [job], replies + [job];
      assert Unanswered() == [job] + (discarded + tasks);
      worker := if job.socket.Some? then Answering(job) else Idle;
      assert Unanswered() == discarded + tasks;
    }

    /** The three steps of a socket's reply, on whichever thread it was called. */
    method Number(s: nat)
      requires Valid() && s < |sockets| && sockets[s].stage.Replying?
      modifies `sockets
      ensures var was := old(sockets)[s];
              Valid() && sockets == old(sockets)[s := was.(sequence := was.sequence + 1,
                stage := Numbered(was.sequence + 1), marks := was.marks + [Drew(was.sequence + 1)])]
    {
      hide ControlPlane.Queued, ControlPlane.Accounted;
      NumberOk(sockets[s]);
      SocketStep(sockets, s, AfterNumber(sockets[s]), Unanswered(), worker);
      sockets := sockets[s := AfterNumber(sockets[s])];
    }

    method Send(s: nat)
      requires Valid() && s < |sockets| && sockets[s].stage.Numbered?
      modifies `sockets
      ensures var was := old(sockets)[s];
              Valid() && sockets == old(sockets)[s := was.(stage := Sent,
                delivered := if was.connected then was.delivered + [was.stage.n] else was.delivered)]
    {
      hide ControlPlane.Queued, ControlPlane.Accounted;
      var was := sockets[s];
      NextUpTo(|was.delivered|);
      var now := was.(stage := Sent, delivered := if was.connected then was.delivered + [was.stage.n] else was.delivered);
      SocketStep(sockets, s, now, Unanswered(), worker);
      sockets := sockets[s := now];
    }

    method Release(s: nat)
      requires Valid() && s < |sockets| && sockets[s].stage.Sent?
      modifies `sockets, `worker
      ensures Valid() && sockets == old(sockets)[s := old(sockets)[s].(busy := false, stage := Free)]
      ensures worker == if old(worker).Answering? && old(worker).job.socket == Some(s) then Idle else old(worker)
    {
      hide ControlPlane.Accounted;
      ghost var waiting := Unanswered();
      if worker.Answering? && worker.job.socket == Some(s) {
        worker := Idle;
      }
      assert Unanswered() == waiting;
      SocketStep(sockets, s, sockets[s].(busy := false, stage := Free), waiting, worker);
      sockets := sockets[s := sockets[s].(busy := false, stage := Free)];
    }

    /** After its last turn the control thread drops what is still queued. */
    method Shutdown()
      requires Valid() && !stopped && worker.Idle?
      modifies `tasks, `stopped, `discarded
      ensures Valid() && stopped && tasks == [] && discarded == old(tasks)
    {
      ghost var waiting := Unanswered();
      stopped, discarded, tasks := true, tasks, [];
      assert Unanswered() == waiting;
    }
  }

  // ---- Whole runs ----

  datatype Step =
    | Arrive | Leave(s: nat) | Ask
    | Message(s: nat, ack: Option<string>) | Swap(s: nat, i: nat) | Hand(s: nat)
    | Begin | End | Draw(s: nat) | Push(s: nat) | Clear(s: nat) | Quit

  /** What a granted snapshot says about the message it answers: that one acknowledged the number
      before, if and only if nothing was drawn between its comparison and its exchange; and so it did
      whenever it was compared alone, with the flag clear, and stayed alone until its exchange. */
  ghost predicate AnswersAck(marks: seq<Mark>, i: nat)
    requires i < |marks| && marks[i].Granted?
  {
    var c, n := marks[i].comparison, marks[i].n;
    && c < i && marks[c].Compared?
    && (marks[c].ack == n - 1 <==> forall k | c < k < i :: !marks[k].Drew?)
    && (Alone(marks, c, i) ==> marks[c].ack == n - 1)
  }

  /** Any interleaving keeps the queue and the handshakes. A peer that does not leave stays connected,
      and has been sent exactly 1, 2, 3, and so on, up to the socket's number, whenever its flag is clear. */
  method Run(c: ControlPlane, steps: seq<Step>)
    requires c.Valid()
    modifies c
    ensures c.Valid() && |c.tasks| <= 64
    ensures c.accepted == c.finished + c.Current() + c.discarded + c.tasks
    ensures forall s | 0 <= s < |c.sockets| ::
      && c.sockets[s].delivered == UpTo(|c.sockets[s].delivered|)
      && c.sockets[s].sequence <= c.sockets[s].granted <= c.sockets[s].sequence + 1
      && (c.sockets[s].connected && !c.sockets[s].busy ==> |c.sockets[s].delivered| == c.sockets[s].sequence)
    ensures |old(c.sockets)| <= |c.sockets|
    ensures forall s | 0 <= s < |c.sockets| && (s < |old(c.sockets)| ==> old(c.sockets)[s].connected) && Leave(s) !in steps ::
      && c.sockets[s].connected
      && (!c.sockets[s].busy ==> c.sockets[s].delivered == UpTo(c.sockets[s].sequence))
    ensures forall s, i | 0 <= s < |c.sockets| && 0 <= i < |c.sockets[s].marks| && c.sockets[s].marks[i].Granted? ::
      AnswersAck(c.sockets[s].marks, i)
  {
    hide ControlPlane.Accounted, Awaited, Held, UpTo;
    ghost var was := c.sockets;
    RunSteps(c, steps);
    hide MarkOk, Remembered, Orderly, Alone;
    forall s | 0 <= s < |c.sockets|
      ensures SocketOk(c.sockets[s])
      ensures (s < |was| ==> was[s].connected) && Leave(s) !in steps ==> c.sockets[s].connected
    {
      assert (s < |was| ==> was[s].connected) && Leave(s) !in steps ==> Stays(was, s, steps, |steps|);
    }
    forall s, i | 0 <= s < |c.sockets| && 0 <= i < |c.sockets[s].marks| && c.sockets[s].marks[i].Granted?
      ensures AnswersAck(c.sockets[s].marks, i)
    {
      FreshExactly(c.sockets[s].marks, c.sockets[s].sequence, i);
      if Alone(c.sockets[s].marks, c.sockets[s].marks[i].comparison, i) { FreshWhenAlone(c.sockets[s], i); }
    }
  }

  /** Sockets only come, and only its own `Leave` disconnects one. */
  ghost predicate PeersStay(was: seq<Socket>, now: seq<Socket>, steps: seq<Step>, n: nat)
    requires n <= |steps|
  {
    && |was| <= |now|
    && forall s | 0 <= s < |now| && Stays(was, s, steps, n) :: now[s].connected
  }

  /** A peer that is there, or still to come, and does not leave. */
  predicate Stays(was: seq<Socket>, s: nat, steps: seq<Step>, n: nat)
    requires n <= |steps|
  {
    (s < |was| ==> was[s].connected) && forall k | 0 <= k < n :: steps[k] != Leave(s)
  }

  lemma PeersStayOn(was: seq<Socket>, mid: seq<Socket>, now: seq<Socket>, steps: seq<Step>, n: nat)
    requires n < |steps| && PeersStay(was, mid, steps, n) && PeersStay(mid, now, [steps[n]], 1)
    ensures PeersStay(was, now, steps, n + 1)
  {
    forall s | 0 <= s < |now| && Stays(was, s, steps, n + 1)
      ensures now[s].connected
    {
      assert Stays(was, s, steps, n);
      assert Stays(mid, s, [steps[n]], 1);
    }
  }

  method RunSteps(c: ControlPlane, steps: seq<Step>)
    requires c.Valid()
    modifies c
    ensures c.Valid() && PeersStay(old(c.sockets), c.sockets, steps, |steps|)
  {
    hide ControlPlane.Valid, PeersStay;
    assert PeersStay(c.sockets, c.sockets, steps, 0) by { NobodyLeft(c.sockets, steps); }
    for i := 0 to |steps|
      invariant c.Valid() && PeersStay(old(c.sockets), c.sockets, steps, i)
    {
      ghost var before := c.sockets;
      TakeStep(c, steps[i]);
      PeersStayOn(old(c.sockets), before, c.sockets, steps, i);
    }
  }

  lemma NobodyLeft(sockets: seq<Socket>, steps: seq<Step>)
    ensures PeersStay(sockets, sockets, steps, 0)
  {
  }

  /** A step that is not enabled is skipped. */
  method TakeStep(c: ControlPlane, step: Step)
    requires c.Valid()
    modifies c
    ensures c.Valid() && PeersStay(old(c.sockets), c.sockets, [step], 1)
  {
    hide ControlPlane.Valid, Text.Decimal;
    assert [step][0] == step;
    match step
    case Arrive => c.Connect();
    case Leave(s) => if s < |c.sockets| { c.Disconnect(s); }
    case Ask => var ok := c.Request();
    case Message(s, ack) => if s < |c.sockets| { c.Compare(s, ack); }
    case Swap(s, i) => if s < |c.sockets| && i < |c.sockets[s].compared| { var won := c.Exchange(s, i); }
    case Hand(s) => if s < |c.sockets| && c.sockets[s].stage.Won? { c.SubmitSnapshot(s); }
    case Begin => if !c.stopped && c.worker.Idle? && c.tasks != [] { c.Take(); }
    case End => if c.worker.Running? { c.Answer(); }
    case Draw(s) => if s < |c.sockets| && c.sockets[s].stage.Replying? { c.Number(s); }
    case Push(s) => if s < |c.sockets| && c.sockets[s].stage.Numbered? { c.Send(s); }
    case Clear(s) => if s < |c.sockets| && c.sockets[s].stage.Sent? { c.Release(s); }
    case Quit => if !c.stopped && c.worker.Idle? { c.Shutdown(); }
  }

  lemma OccursOnce(jobs: seq<Job>, i: nat)
    requires i < |jobs| && forall k | 0 <= k < |jobs| :: jobs[k].id == k
    ensures multiset(jobs)[jobs[i]] == 1
  {
    assert jobs == jobs[..i] + [jobs[i]] + jobs[i + 1..];
    assert jobs[i] !in jobs[..i] && jobs[i] !in jobs[i + 1..];
  }

  /** Every submitted job is in exactly one place, and its reply has been called once if it is
      finished or was refused and not at all while it is queued, running or dropped. */
  lemma RepliedOnce(c: ControlPlane, i: nat)
    requires c.Valid() && i < |c.submitted|
    ensures var j := c.submitted[i];
            && multiset(c.refused)[j] + multiset(c.finished)[j] + multiset(c.Current())[j]
               + multiset(c.discarded)[j] + multiset(c.tasks)[j] == 1
            && multiset(c.replies)[j] == multiset(c.refused)[j] + multiset(c.finished)[j]
  {
    var j := c.submitted[i];
    OccursOnce(c.submitted, i);
    assert multiset(c.accepted) == multiset(c.finished) + multiset(c.Unanswered());
    assert multiset(c.Unanswered()) == multiset(c.Current()) + multiset(c.discarded) + multiset(c.tasks);
  }

  /** At most one snapshot of a socket is unanswered, and its flag says so. */
  lemma OneOutstanding(c: ControlPlane, s: nat, i: nat, k: nat)
    requires c.Valid() && s < |c.sockets| && i < |c.Unanswered()| && k < |c.Unanswered()|
    requires c.Unanswered()[i].socket == Some(s) == c.Unanswered()[k].socket
    ensures i == k && c.sockets[s].busy && c.sockets[s].granted == c.sockets[s].sequence + 1
  {
    assert WaitsFor(c.sockets, c.Unanswered()[i]);
    assert SocketOk(c.sockets[s]);
  }

  /** The comparison and the exchange are two steps, so one ack can let two snapshots through:
      the second message is compared before the first reply draws its number, and exchanged after. */
  method StaleAck() returns (c: ControlPlane)
    ensures c.Valid() && |c.sockets| == 1 && c.sockets[0].delivered == [1, 2] && c.sockets[0].connected
    ensures c.sockets[0].marks ==
      [Compared(0, true), Granted(0, 1), Compared(0, false), Drew(1), Granted(2, 2), Drew(2)]
  {
    hide ControlPlane.Valid, Text.Decimal;
    c := TwoCompared();
    TakeAndReply(c, 0);
    assert c.sockets[0].marks == [Compared(0, true), Granted(0, 1), Compared(0, false), Drew(1)];
    var second := c.Exchange(0, 0);
    c.SubmitSnapshot(0);
    TakeAndReply(c, 0);
  }

  /** A socket whose first message has its snapshot granted and whose second has passed the comparison. */
  const COMPARED_TWICE: Socket :=
    Socket(true, 0, true, [2], Pending, 1, [], [Compared(0, true), Granted(0, 1), Compared(0, false)])

  method TwoCompared() returns (c: ControlPlane)
    ensures fresh(c) && c.Valid() && c.worker == Idle && !c.stopped && |c.tasks| == 1 && c.tasks[0].socket == Some(0)
    ensures c.sockets == [COMPARED_TWICE]
  {
    hide ControlPlane.Valid, Text.Decimal, SocketOk, Remembered, Orderly;
    FirstSteps();
    c := new ControlPlane();
    c.Connect();
    c.Compare(0, Some(Text.Decimal(0)));
    assert c.sockets == [AfterCompare(FRESH)];
    var first := c.Exchange(0, 0);
    assert c.sockets == [AfterExchange(AfterCompare(FRESH), 0)];
    c.SubmitSnapshot(0);
    assert c.sockets == [AfterExchange(AfterCompare(FRESH), 0).(stage := Pending)];
    c.Compare(0, Some(Text.Decimal(0)));
  }

  lemma FirstSteps()
    ensures var compared := AfterCompare(FRESH);
            && compared.compared == [0] && !compared.busy && compared.sequence == 0
            && var granted := AfterExchange(compared, 0);
               granted.stage == Won && granted.sequence == 0 && AfterCompare(granted.(stage := Pending)) == COMPARED_TWICE
  {
    var granted := AfterExchange(AfterCompare(FRESH), 0);
    assert granted.marks == [Compared(0, true), Granted(0, 1)] && granted.compared == [];
    var again := AfterCompare(granted.(stage := Pending));
    assert again.marks == COMPARED_TWICE.marks && again.compared == [2];
  }

  method TakeAndReply(c: ControlPlane, s: nat)
    requires c.Valid() && c.worker.Idle? && !c.stopped && |c.tasks| == 1 && c.tasks[0].socket == Some(s) && s < |c.sockets|
    modifies c`tasks, c`worker, c`sockets, c`finished, c`replies
    ensures c.Valid() && c.worker == Idle && c.tasks == []
    ensures c.sockets == old(c.sockets)[s := AfterReply(old(c.sockets)[s])]
  {
    hide ControlPlane.Valid, AfterReply;
    c.Take();
    Reply(c, s);
  }

  /** A whole reply, seen from its socket. */
  function AfterReply(s: Socket): Socket {
    var n := s.sequence + 1;
    s.(busy := false, sequence := n, stage := Free, marks := s.marks + [Drew(n)],
       delivered := if s.connected then s.delivered + [n] else s.delivered)
  }

  /** The control thread answers a snapshot without interruption. */
  method Reply(c: ControlPlane, s: nat)
    requires c.Valid() && c.worker.Running? && c.worker.job.socket == Some(s) && s < |c.sockets|
    modifies c`worker, c`sockets, c`finished, c`replies
    ensures c.Valid() && c.worker == Idle
    ensures c.sockets == old(c.sockets)[s := AfterReply(old(c.sockets)[s])]
  {
    hide ControlPlane.Valid;
    c.Answer();
    c.Number(s);
    c.Send(s);
    c.Release(s);
  }
}
