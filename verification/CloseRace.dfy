/**
 A thread other than the loop's has tested the state of an open connection and
 sets it when the connection is closed already. It is then half open again. This
 module says exactly when that can happen, and what comes of it.
 */
module CloseRace {
  import opened ConnectionModel
  import opened ShutdownRace

  /** Threads between the test and the setting of the state. */
  function Setters(c: Conn): nat { c.calls.toShut + c.calls.toClose }

  /** Closed for good. */
  predicate Closed(c: Conn) { Inv(c) && c.state == Disconnected && Setters(c) == 0 }

  lemma StepClosed(c: Conn, e: Event)
    requires Closed(c) && Enabled(c, e)
    ensures Closed(Apply(c, e)) && Apply(c, e).closes == c.closes
  {
    StepInv(c, e);
  }

  lemma {:induction false} PlayClosed(c: Conn, es: seq<Event>)
    requires Closed(c) && Playable(c, es)
    ensures Play(c, es).state == Disconnected && Play(c, es).closes == c.closes && WatchedThroughout(c, es)
    decreases |es|
  {
    hide Apply, Enabled;
    if es != [] {
      StepClosed(c, es[0]);
      PlayClosed(Apply(c, es[0]), es[1..]);
    }
  }

  ghost predicate StaysClosed(c: Conn) {
    forall es :: Playable(c, es) ==> Play(c, es).state == Disconnected
  }

  ghost predicate NeverClosedAgain(c: Conn) {
    forall es :: Playable(c, es) ==> Play(c, es).closes == c.closes
  }

  ghost predicate StaysWatched(c: Conn) {
    forall es :: Playable(c, es) ==> WatchedThroughout(c, es)
  }

  function Setter(c: Conn): Event { if c.calls.toShut > 0 then ShutdownSet else CloseSet }

  /** The state is set after the close. */
  lemma SetLate(c: Conn)
    requires Inv(c) && c.state == Disconnected && Setters(c) > 0
    ensures Enabled(c, Setter(c)) && Inv(Apply(c, Setter(c)))
    ensures var d := Apply(c, Setter(c));
            && d.state == Disconnecting && d.closes == c.closes && d.calls.home == Idle && d.output == c.output
            && Playable(c, [Setter(c)]) && Play(c, [Setter(c)]) == d
  {
    StepInv(c, Setter(c));
    assert [Setter(c)][1..] == [];
  }

  lemma HeadGone(c: Conn)
    requires Inv(c) && c.state == Disconnecting && c.calls.home == Idle && c.pending != []
    ensures Enabled(c, Head(GONE, GONE)) && Inv(Apply(c, Head(GONE, GONE)))
    ensures var d := Apply(c, Head(GONE, GONE));
            || d.closes == c.closes + 1
            || (&& d.closes == c.closes && d.state == Disconnecting && d.calls.home == Idle
                && d.pending == c.pending[1..] && c.pending[0] != ForceCloseInLoop)
  {
    StepInv(c, Head(GONE, GONE));
  }

  /** A queued `forceCloseInLoop` closes the connection, if nothing does before. */
  lemma {:induction false} ReachClose(c: Conn) returns (es: seq<Event>)
    requires Inv(c) && c.state == Disconnecting && c.calls.home == Idle && ForceCloseInLoop in c.pending
    ensures Playable(c, es) && Play(c, es).closes == c.closes + 1
    decreases |c.pending|
  {
    var e := Head(GONE, GONE);
    HeadGone(c);
    var d := Apply(c, e);
    hide Apply, Enabled, Inv;
    if d.closes == c.closes + 1 {
      es := [];
    } else {
      assert c.pending == [c.pending[0]] + c.pending[1..];
      es := ReachClose(d);
    }
    assert ([e] + es)[1..] == es;
    es := [e] + es;
  }

  /** A half-open connection can be closed a second time. */
  lemma CloseAgain(c: Conn) returns (es: seq<Event>)
    requires Inv(c) && c.state == Disconnecting && c.calls.home == Idle
    ensures Playable(c, es) && Play(c, es).closes == c.closes + 1
  {
    var d := Apply(c, ForceClosed);
    StepInv(c, ForceClosed);
    var fs := ReachClose(d);
    es := [ForceClosed] + fs;
    assert es[1..] == fs;
    hide Apply;
  }

  /** A closed connection stays closed, whatever happens afterwards, if and only if
      no other thread is in `shutdown` or `forceClose` between the test of the state
      and setting it. */
  lemma StaysClosedIff(c: Conn)
    requires Inv(c) && c.state == Disconnected
    ensures StaysClosed(c) <==> Setters(c) == 0
  {
    if Setters(c) == 0 {
      forall es | Playable(c, es) ensures Play(c, es).state == Disconnected { PlayClosed(c, es); }
    } else {
      SetLate(c);
    }
    hide Playable, Play, Inv, Apply, Enabled, Setter;
  }

  /** And the close callback is not called again under the same condition. */
  lemma ClosedOnceIff(c: Conn)
    requires Inv(c) && c.state == Disconnected
    ensures NeverClosedAgain(c) <==> Setters(c) == 0
  {
    if Setters(c) == 0 {
      forall es | Playable(c, es) ensures Play(c, es).closes == c.closes { PlayClosed(c, es); }
    } else {
      SetLate(c);
      var es := CloseAgain(Apply(c, Setter(c)));
      PlayOn(c, [Setter(c)], es);
    }
    hide Playable, Play, Inv, Apply, Enabled, Setter;
  }

  /** Closed with bytes left, it asks for write events whenever it is open with bytes
      buffered, whatever happens afterwards, under the same condition. */
  lemma StaysWatchedIff(c: Conn)
    requires Inv(c) && c.state == Disconnected && c.output != ""
    ensures StaysWatched(c) <==> Setters(c) == 0
  {
    if Setters(c) == 0 {
      forall es | Playable(c, es) ensures WatchedThroughout(c, es) { PlayClosed(c, es); }
    } else {
      SetLate(c);
      var es := [Setter(c)];
      StepWatched(c, Setter(c));
      assert es[1..] == [];
      assert !WatchedThroughout(c, es);
    }
    hide Playable, Play, Inv, Apply, Enabled, Setter;
  }
}
