/**
 backend/cmd/multiplexer.go: the status of one multiplexed connection. updateStatus,
 safeClose and closeClientConnections are interleaved critical section by critical section;
 closeOnce admits one goroutine, the others wait for it.
 */
module Connection {
  import opened Wrappers

  datatype ConnectionState = StateConnecting | StateConnected | StateError | StateClosed

  datatype Status = Status(state: ConnectionState, error: string)

  /** `written` lists the STATUS messages sent to the client, doneCloses counts close(Done). */
  datatype Conn = Conn(status: Status, client: Option<nat>, closed: bool, doneCloses: nat, written: seq<Status>)

  function NewConn(client: Option<nat>): Conn
  {
    Conn(Status(StateConnecting, ""), client, false, 0, [])
  }

  /** writeStatusLocked, under c.mu. */
  function WriteStatus(c: Conn): Conn
  {
    if c.closed then c else c.(written := c.written + [c.status])
  }

  /** The locked part of updateStatus. */
  function Update(c: Conn, state: ConnectionState, error: string): Conn
  {
    if c.closed then c
    else
      var c' := c.(status := Status(state, error));
      if c'.client.None? then c' else WriteStatus(c')
  }

  /** The locked part of safeClose. */
  function CloseLocked(c: Conn): Conn
  {
    if c.closed then c
    else
      var c' := c.(status := Status(StateClosed, ""));
      (if c.status.state != StateClosed && c.client.Some? then WriteStatus(c') else c').(closed := true)
  }

  /** What closeClientConnections does to a connection under its lock. */
  function Detach(c: Conn, client: nat): Conn
  {
    if c.client == Some(client) then c.(client := None, status := Status(StateClosed, "")) else c
  }

  /** The end of safeClose: close Done unless it is closed already. */
  function SignalDone(c: Conn): Conn
  {
    if c.doneCloses > 0 then c else c.(doneCloses := 1)
  }

  // ------------------------------------------------------------ in place

  class WSConnection {
    var status: Status
    var client: Option<nat>
    var closed: bool
    var doneCloses: nat
    var written: seq<Status>
    /** closeOnce has run. */
    var closedOnce: bool

    ghost function Contents(): Conn
      reads this
    {
      Conn(status, client, closed, doneCloses, written)
    }

    constructor (client: Option<nat>)
      ensures Contents() == NewConn(client) && !closedOnce
    {
      status, this.client, closed := Status(StateConnecting, ""), client, false;
      doneCloses, written, closedOnce := 0, [], false;
    }

    method WriteStatusLocked()
      modifies this`written
      ensures Contents() == WriteStatus(old(Contents()))
    {
      if closed {
        return;
      }
      written := written + [status];
    }

    method SafeClose()
      modifies this
      ensures closedOnce
      ensures Contents() == if old(closedOnce) then old(Contents()) else SignalDone(CloseLocked(old(Contents())))
    {
      if closedOnce {
        return;
      }
      closedOnce := true;
      if !closed {
        var shouldWriteStatus := status.state != StateClosed;
        status := Status(StateClosed, "");
        if shouldWriteStatus && client.Some? {
          WriteStatusLocked();
        }
        closed := true;
      }
      if doneCloses == 0 {
        doneCloses := 1;
      }
    }

    method UpdateStatus(state: ConnectionState, error: string)
      modifies this
      ensures var updated := Update(old(Contents()), state, error);
        Contents() == if old(closed) || state != StateClosed || old(closedOnce) then updated
                      else SignalDone(CloseLocked(updated))
      ensures closedOnce == (old(closedOnce) || (!old(closed) && state == StateClosed))
      ensures !old(closed) && state != StateClosed ==>
        && status == Status(state, error)
        && written == old(written) + if client.Some? then [Status(state, error)] else []
    {
      if closed {
        return;
      }
      status := Status(state, error);
      if client.None? {
        if state == StateClosed {
          SafeClose();
        }
        return;
      }
      WriteStatusLocked();
      if state == StateClosed {
        SafeClose();
      }
    }

    /** One connection's share of closeClientConnections. */
    method CloseForClient(clientConn: nat)
      modifies this
      ensures closedOnce
      ensures var detached := Detach(old(Contents()), clientConn);
        Contents() == if old(closedOnce) then detached else SignalDone(CloseLocked(detached))
    {
      if client == Some(clientConn) {
        client := None;
        status := Status(StateClosed, "");
      }
      SafeClose();
    }
  }

  // ------------------------------------------------------------ interleavings

  /** A goroutine on its way through safeClose. */
  datatype Pc = WantsClose | HoldsOnce | Locked | Returned

  datatype State = State(conn: Conn, pcs: map<nat, Pc>)

  datatype Label =
    | Updates(t: nat, state: ConnectionState, error: string)
    | Detaches(t: nat, client: nat)
    | CallsClose(t: nat)
    | Enters(t: nat)
    | Locks(t: nat)
    | Signals(t: nat)

  /** The goroutine that was let into closeOnce. */
  ghost predicate InOnce(s: State, t: nat)
  {
    t in s.pcs && (s.pcs[t] == HoldsOnce || s.pcs[t] == Locked)
  }

  ghost predicate OnceUnused(s: State)
  {
    forall t :: t in s.pcs ==> s.pcs[t] == WantsClose
  }

  ghost predicate OnceRunning(s: State)
  {
    exists t :: InOnce(s, t)
  }

  ghost predicate Enabled(s: State, l: Label)
  {
    match l
    case Updates(t, _, _) => t !in s.pcs
    case Detaches(t, _) => t !in s.pcs
    case CallsClose(t) => t !in s.pcs
    case Enters(t) => t in s.pcs && s.pcs[t] == WantsClose && !OnceRunning(s)
    case Locks(t) => t in s.pcs && s.pcs[t] == HoldsOnce
    case Signals(t) => t in s.pcs && s.pcs[t] == Locked
  }

  /** Once.Do lets the first caller in; callers after its return come straight back. */
  ghost function Step(s: State, l: Label): State
    requires Enabled(s, l)
  {
    match l
    case Updates(t, state, error) =>
      State(Update(s.conn, state, error),
            if !s.conn.closed && state == StateClosed then s.pcs[t := WantsClose] else s.pcs)
    case Detaches(t, client) => State(Detach(s.conn, client), s.pcs[t := WantsClose])
    case CallsClose(t) => s.(pcs := s.pcs[t := WantsClose])
    case Enters(t) => s.(pcs := s.pcs[t := if OnceUnused(s) then HoldsOnce else Returned])
    case Locks(t) => State(CloseLocked(s.conn), s.pcs[t := Locked])
    case Signals(t) => State(SignalDone(s.conn), s.pcs[t := Returned])
  }

  ghost predicate ValidRun(s: State, ls: seq<Label>)
    decreases |ls|
  {
    ls == [] || (Enabled(s, ls[0]) && ValidRun(Step(s, ls[0]), ls[1..]))
  }

  ghost function Exec(s: State, ls: seq<Label>): State
    requires ValidRun(s, ls)
    decreases |ls|
  {
    if ls == [] then s else Exec(Step(s, ls[0]), ls[1..])
  }

  function Start(client: Option<nat>): State
  {
    State(NewConn(client), map[])
  }

  /** The message tells the status; a close reported with an error would later be kept without it. */
  predicate Tells(message: Status, status: Status)
  {
    message == status || (message.state == StateClosed && status == Status(StateClosed, ""))
  }

  /** An attached client was last told the present status, or nothing while connecting. */
  ghost predicate ClientUpToDate(c: Conn)
  {
    c.client.Some? ==>
      if c.written == [] then c.status == Status(StateConnecting, "")
      else Tells(c.written[|c.written| - 1], c.status)
  }

  /** The once is unused, held before or after the lock, or done; closed and Done follow it. */
  ghost predicate OnceFollowed(s: State)
  {
    && (forall t, t' :: InOnce(s, t) && InOnce(s, t') ==> t == t')
    && (forall t :: InOnce(s, t) ==> s.conn.doneCloses == 0 && (s.conn.closed <==> s.pcs[t] == Locked))
    && (OnceUnused(s) ==> !s.conn.closed && s.conn.doneCloses == 0)
    && (!OnceUnused(s) && !OnceRunning(s) ==> s.conn.closed && s.conn.doneCloses == 1)
  }

  ghost predicate Inv(s: State)
  {
    && ClientUpToDate(s.conn) && OnceFollowed(s)
    && (s.conn.closed ==> s.conn.status.state == StateClosed)
  }

  lemma InvStep(s: State, l: Label)
    requires Inv(s) && Enabled(s, l)
    ensures Inv(Step(s, l))
  {
    var s' := Step(s, l);
    match l
    case Updates(t, _, _) => SamePhase(s, s', t);
    case Detaches(t, _) => SamePhase(s, s', t);
    case CallsClose(t) => SamePhase(s, s', t);
    case Enters(t) =>
      if OnceUnused(s) {
        assert InOnce(s', t);
      } else {
        var u :| u in s.pcs && s.pcs[u] != WantsClose;
        assert u in s'.pcs && s'.pcs[u] == Returned;
        assert forall v :: InOnce(s', v) ==> InOnce(s, v);
      }
    case Locks(t) => assert InOnce(s, t) && InOnce(s', t) && forall u :: InOnce(s', u) ==> InOnce(s, u);
    case Signals(t) => assert s'.pcs[t] == Returned && InOnce(s, t) && forall u :: InOnce(s', u) ==> InOnce(s, u);
  }

  /** A goroutine that merely wants to close does not move the once. */
  lemma SamePhase(s: State, s': State, t: nat)
    requires t !in s.pcs && (s'.pcs == s.pcs || s'.pcs == s.pcs[t := WantsClose])
    ensures OnceUnused(s') <==> OnceUnused(s)
    ensures OnceRunning(s') <==> OnceRunning(s)
    ensures forall u :: InOnce(s', u) <==> InOnce(s, u)
  {
    assert forall u :: u in s.pcs ==> u in s'.pcs && s'.pcs[u] == s.pcs[u];
    assert forall u :: InOnce(s', u) <==> InOnce(s, u);
  }

  lemma {:induction false} InvRun(s: State, ls: seq<Label>)
    requires Inv(s) && ValidRun(s, ls)
    ensures Inv(Exec(s, ls))
    decreases |ls|
  {
    if ls != [] {
      InvStep(s, ls[0]);
      InvRun(Step(s, ls[0]), ls[1..]);
    }
  }

  /**
   In every interleaving, an attached client was last told the connection's present status
   (or none yet, while it is connecting), and Done is closed at most once: exactly once when
   some safeClose has returned and none is under way.
   */
  lemma StatusAgreement(client: Option<nat>, ls: seq<Label>)
    requires ValidRun(Start(client), ls)
    ensures var s := Exec(Start(client), ls);
      && (s.conn.client.Some? && s.conn.written != [] ==> Tells(s.conn.written[|s.conn.written| - 1], s.conn.status))
      && (s.conn.client.Some? && s.conn.written == [] ==> s.conn.status.state == StateConnecting)
      && s.conn.doneCloses <= 1
      && ((exists t :: t in s.pcs && s.pcs[t] == Returned) ==> s.conn.closed && s.conn.doneCloses == 1)
  {
    InvRun(Start(client), ls);
    var s := Exec(Start(client), ls);
    if t :| t in s.pcs && s.pcs[t] == Returned {
      assert !OnceUnused(s);
      ReturnedMeansDone(client, ls);
    }
  }

  /** The step reports no error along with a close; none of the source's three closing calls does. */
  predicate ClosesPlainly(l: Label)
  {
    l.Updates? && l.state == StateClosed ==> l.error == ""
  }

  /** An attached client was last told exactly the present status, error text included. */
  ghost predicate ToldExactly(c: Conn)
  {
    && (c.status.state == StateClosed ==> c.status.error == "")
    && (c.client.Some? ==>
          if c.written == [] then c.status == Status(StateConnecting, "")
          else c.written[|c.written| - 1] == c.status)
  }

  lemma {:induction false} ToldExactlyRun(s: State, ls: seq<Label>)
    requires Inv(s) && ToldExactly(s.conn) && ValidRun(s, ls)
    requires forall i :: 0 <= i < |ls| ==> ClosesPlainly(ls[i])
    ensures ToldExactly(Exec(s, ls).conn)
    decreases |ls|
  {
    if ls != [] {
      InvStep(s, ls[0]);
      assert ClosesPlainly(ls[0]) && ToldExactly(Step(s, ls[0]).conn);
      assert forall i :: 0 <= i < |ls[1..]| ==> ls[1..][i] == ls[i + 1];
      ToldExactlyRun(Step(s, ls[0]), ls[1..]);
    }
  }

  /**
   In every interleaving of the calls the source makes: the last STATUS an attached client was
   sent is the connection's status, state and error text, and none has been sent only while it
   is connecting.
   */
  lemma ClientKnowsStatus(client: Option<nat>, ls: seq<Label>)
    requires ValidRun(Start(client), ls) && forall i :: 0 <= i < |ls| ==> ClosesPlainly(ls[i])
    ensures ToldExactly(Exec(Start(client), ls).conn)
  {
    ToldExactlyRun(Start(client), ls);
  }

  // ------------------------------------------------------------ what the client hears

  /** The statuses reported by the updates of a run, in order. */
  function Reports(ls: seq<Label>): seq<Status>
  {
    if ls == [] then [] else Report(ls[0]) + Reports(ls[1..])
  }

  function Report(l: Label): seq<Status>
  {
    if l.Updates? then [Status(l.state, l.error)] else []
  }

  /** The client is not detached during the run. */
  predicate StaysAttached(client: nat, ls: seq<Label>)
  {
    forall i :: 0 <= i < |ls| && ls[i].Detaches? ==> ls[i].client != client
  }

  predicate Attached(s: State, client: nat)
  {
    s.conn.client == Some(client)
  }

  lemma {:induction false} ClosedStays(s: State, ls: seq<Label>)
    requires ValidRun(s, ls) && s.conn.closed
    ensures Exec(s, ls).conn.closed
    decreases |ls|
  {
    if ls != [] {
      ClosedStays(Step(s, ls[0]), ls[1..]);
    }
  }

  /** Between the two states exactly the reports were written, and the last one is the status. */
  predicate Heard(before: Conn, reports: seq<Status>, after: Conn)
  {
    && after.client == before.client && after.written == before.written + reports
    && after.status == if reports == [] then before.status else reports[|reports| - 1]
  }

  lemma HeardTwice(c0: Conn, a: seq<Status>, c1: Conn, b: seq<Status>, c2: Conn)
    requires Heard(c0, a, c1) && Heard(c1, b, c2)
    ensures Heard(c0, a + b, c2)
  {
    assert c0.written + a + b == c0.written + (a + b);
  }

  lemma ReportIsHeard(s: State, client: nat, l: Label)
    requires Enabled(s, l) && Attached(s, client) && (l.Detaches? ==> l.client != client)
    requires !Step(s, l).conn.closed
    ensures Heard(s.conn, Report(l), Step(s, l).conn)
  {
  }

  /** Until it closes, a connection's status is the one last reported, and its client hears every report. */
  lemma {:induction false} ReportsAreHeardFrom(s: State, client: nat, ls: seq<Label>)
    requires ValidRun(s, ls) && Attached(s, client) && StaysAttached(client, ls) && !Exec(s, ls).conn.closed
    ensures Heard(s.conn, Reports(ls), Exec(s, ls).conn)
    decreases |ls|
  {
    if ls != [] {
      var s1 := Step(s, ls[0]);
      if s1.conn.closed {
        ClosedStays(s1, ls[1..]);
      }
      assert forall i :: 0 <= i < |ls[1..]| ==> ls[1..][i] == ls[i + 1];
      ReportIsHeard(s, client, ls[0]);
      ReportsAreHeardFrom(s1, client, ls[1..]);
      HeardTwice(s.conn, Report(ls[0]), s1.conn, Reports(ls[1..]), Exec(s, ls).conn);
    }
  }

  /**
   From its start and until it closes, in every interleaving: the status of an attached
   connection is the last one reported to updateStatus, StateConnecting before the first, and the
   STATUS messages its client got are all the reports, in order.
   */
  lemma ReportsAreHeard(client: nat, ls: seq<Label>)
    requires ValidRun(Start(Some(client)), ls) && StaysAttached(client, ls)
    requires !Exec(Start(Some(client)), ls).conn.closed
    ensures var f := Exec(Start(Some(client)), ls).conn; var r := Reports(ls);
      && f.client == Some(client) && f.written == r
      && f.status == if r == [] then Status(StateConnecting, "") else r[|r| - 1]
  {
    var s := Start(Some(client));
    ReportsAreHeardFrom(s, client, ls);
    var r := Reports(ls);
    assert s.conn.written == [] && [] + r == r;
  }

  /**
   The close itself: an attached client hears StateClosed once, from the report of the close or
   else from safeClose, and the status is StateClosed without an error.
   */
  lemma CloseIsHeard(client: nat, ls: seq<Label>, t: nat)
    requires ValidRun(Start(Some(client)), ls) && StaysAttached(client, ls)
    requires Enabled(Exec(Start(Some(client)), ls), Locks(t))
    ensures var f := Step(Exec(Start(Some(client)), ls), Locks(t)).conn; var r := Reports(ls);
      && f.closed && f.status == Status(StateClosed, "")
      && f.written == if r != [] && r[|r| - 1].state == StateClosed then r else r + [Status(StateClosed, "")]
  {
    InvRun(Start(Some(client)), ls);
    var s := Exec(Start(Some(client)), ls);
    assert InOnce(s, t);
    ReportsAreHeard(client, ls);
  }

  /** Without a client -- never attached, or detached -- nothing is written. */
  lemma {:induction false} DetachedHearsNothing(s: State, ls: seq<Label>)
    requires ValidRun(s, ls) && s.conn.client.None?
    ensures Exec(s, ls).conn.client.None? && Exec(s, ls).conn.written == s.conn.written
    decreases |ls|
  {
    if ls != [] {
      DetachedHearsNothing(Step(s, ls[0]), ls[1..]);
    }
  }

  /** Closing a client's connections detaches it, silently: its status is StateClosed from then on. */
  lemma DetachingIsSilent(s: State, t: nat, client: nat, ls: seq<Label>)
    requires Attached(s, client) && Enabled(s, Detaches(t, client)) && ValidRun(Step(s, Detaches(t, client)), ls)
    ensures var s' := Step(s, Detaches(t, client));
      && s'.conn.status == Status(StateClosed, "")
      && Exec(s', ls).conn.client.None? && Exec(s', ls).conn.written == s.conn.written
  {
    DetachedHearsNothing(Step(s, Detaches(t, client)), ls);
  }

  /** With an error reported along with a close the text would be lost. */
  lemma CloseWithErrorLosesText(client: nat, error: string)
    requires error != ""
    ensures var c := CloseLocked(Update(NewConn(Some(client)), StateClosed, error));
      c.written[|c.written| - 1] == Status(StateClosed, error) != c.status
  {
  }

  /** Nobody returns from safeClose before the goroutine that holds the once. */
  ghost predicate DoneFirst(s: State)
  {
    (exists t :: t in s.pcs && s.pcs[t] == Returned) ==> !OnceRunning(s)
  }

  lemma DoneFirstStep(s: State, l: Label)
    requires Inv(s) && DoneFirst(s) && Enabled(s, l)
    ensures DoneFirst(Step(s, l))
  {
    var s' := Step(s, l);
    if l.Updates? || l.Detaches? || l.CallsClose? {
      SamePhase(s, s', l.t);
    }
    if l.Locks? || l.Signals? {
      assert InOnce(s, l.t);
      assert forall u :: InOnce(s', u) ==> InOnce(s, u);
    }
    if l.Enters? && OnceUnused(s) {
      assert forall u :: u in s'.pcs ==> s'.pcs[u] != Returned;
    } else if l.Enters? {
      assert forall u :: InOnce(s', u) ==> InOnce(s, u);
    } else if !l.Signals? {
      assert forall u :: u in s'.pcs && s'.pcs[u] == Returned ==> u in s.pcs && s.pcs[u] == Returned;
    }
  }

  lemma {:induction false} DoneFirstRun(s: State, ls: seq<Label>)
    requires Inv(s) && DoneFirst(s) && ValidRun(s, ls)
    ensures DoneFirst(Exec(s, ls))
    decreases |ls|
  {
    if ls != [] {
      InvStep(s, ls[0]);
      DoneFirstStep(s, ls[0]);
      DoneFirstRun(Step(s, ls[0]), ls[1..]);
    }
  }

  lemma ReturnedMeansDone(client: Option<nat>, ls: seq<Label>)
    requires ValidRun(Start(client), ls)
    ensures DoneFirst(Exec(Start(client), ls))
  {
    DoneFirstRun(Start(client), ls);
  }

  /** Closing is final: the state stays closed and no STATUS is written any more. */
  lemma {:induction false} ClosedIsFinal(s: State, ls: seq<Label>)
    requires Inv(s) && ValidRun(s, ls) && s.conn.closed
    ensures var s' := Exec(s, ls);
      s'.conn.closed && s'.conn.status.state == StateClosed && s'.conn.written == s.conn.written
    decreases |ls|
  {
    if ls != [] {
      InvStep(s, ls[0]);
      ClosedIsFinal(Step(s, ls[0]), ls[1..]);
    }
  }
}
