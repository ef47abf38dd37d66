/**
 * The advisory lock around every pass (lib/db.ts withAdvisoryLock), over pooled
 * connections whose unlock may be lost and whose sessions may die. The database
 * counts: a session may take a lock it already holds, and must give it back as often.
 */
module Locks {
  datatype Hold = Hold(conn: nat, depth: nat)

  /** `inside` are the callers that run their callback now, by the connection each has checked out. */
  datatype Server = Server(holds: map<nat, Hold>, inside: map<nat, nat>)

  datatype Action =
    | Enter(conn: nat, key: nat)
    | Leave(conn: nat)
    | LeaveUnlockLost(conn: nat)
    | SessionDies(conn: nat)

  predicate Granted(s: Server, conn: nat, key: nat) {
    conn !in s.inside && (key in s.holds ==> s.holds[key].conn == conn)
  }

  function Step(s: Server, a: Action): Server {
    match a
    case Enter(conn, key) =>
      if !Granted(s, conn, key) then s
      else Server(s.holds[key := Hold(conn, if key in s.holds then s.holds[key].depth + 1 else 1)],
                  s.inside[conn := key])
    case Leave(conn) =>
      if conn !in s.inside then s
      else
        var key := s.inside[conn];
        if key !in s.holds || s.holds[key].depth <= 1 then Server(s.holds - {key}, s.inside - {conn})
        else Server(s.holds[key := Hold(conn, s.holds[key].depth - 1)], s.inside - {conn})
    case LeaveUnlockLost(conn) => s.(inside := s.inside - {conn})
    case SessionDies(conn) =>
      Server(map key | key in s.holds && s.holds[key].conn != conn :: s.holds[key], s.inside - {conn})
  }

  function After(s: Server, actions: seq<Action>): Server {
    if actions == [] then s else Step(After(s, actions[..|actions| - 1]), actions[|actions| - 1])
  }

  /** Whoever is inside holds the lock, through its own session. */
  ghost predicate Inv(s: Server) {
    && (forall c :: c in s.inside ==> s.inside[c] in s.holds && s.holds[s.inside[c]].conn == c)
    && (forall key :: key in s.holds ==> s.holds[key].depth >= 1)
  }

  lemma StepKeepsInv(s: Server, a: Action)
    requires Inv(s)
    ensures Inv(Step(s, a))
  {
  }

  const FRESH := Server(map[], map[])

  lemma {:induction false} RunKeepsInv(s: Server, actions: seq<Action>)
    requires Inv(s)
    ensures Inv(After(s, actions))
  {
    if actions != [] {
      RunKeepsInv(s, actions[..|actions| - 1]);
      StepKeepsInv(After(s, actions[..|actions| - 1]), actions[|actions| - 1]);
    }
  }

  /**
   * Two callbacks under one key never overlap, whatever unlocks were lost and
   * whatever sessions died before.
   */
  lemma PassesAreSerialised(actions: seq<Action>, c: nat, d: nat)
    ensures var s := After(FRESH, actions);
            c in s.inside && d in s.inside && s.inside[c] == s.inside[d] ==> c == d
  {
    RunKeepsInv(FRESH, actions);
  }

  /** A crash cannot wedge the lock: with the holder's session gone, anyone idle gets in. */
  lemma CrashFreesTheLock(s: Server, holder: nat, other: nat, key: nat)
    requires Inv(s) && key in s.holds && s.holds[key].conn == holder && other !in s.inside
    ensures Granted(Step(s, SessionDies(holder)), other, key)
  {
  }

  /** Every unlock so far reached the server. */
  ghost predicate NoUnlockLost(actions: seq<Action>) {
    forall a :: a in actions ==> !a.LeaveUnlockLost?
  }

  /** Every lock is held once, by somebody inside with it. */
  ghost predicate HeldByInsiders(s: Server) {
    forall key :: key in s.holds ==>
      s.holds[key].depth == 1 && s.holds[key].conn in s.inside && s.inside[s.holds[key].conn] == key
  }

  /** Until an unlock is lost, a lock is held exactly as long as somebody is inside with it, and once. */
  lemma {:induction false} HeldOnlyWhileInside(actions: seq<Action>)
    requires NoUnlockLost(actions)
    ensures HeldByInsiders(After(FRESH, actions))
  {
    RunKeepsInv(FRESH, actions);
    if actions != [] {
      var front, last := actions[..|actions| - 1], actions[|actions| - 1];
      assert last in actions && forall a :: a in front ==> a in actions;
      HeldOnlyWhileInside(front);
      RunKeepsInv(FRESH, front);
      OneStepHeld(After(FRESH, front), last);
    }
  }

  lemma OneStepHeld(s: Server, a: Action)
    requires Inv(s) && !a.LeaveUnlockLost? && HeldByInsiders(s)
    ensures HeldByInsiders(Step(s, a))
  {
  }

  /** So a caller that comes back frees the lock: anyone idle gets in next. */
  lemma ReturningFreesTheLock(actions: seq<Action>, conn: nat, key: nat, other: nat)
    requires NoUnlockLost(actions)
    requires var s := After(FRESH, actions);
             conn in s.inside && s.inside[conn] == key && (other == conn || other !in s.inside)
    ensures var s := Step(After(FRESH, actions), Leave(conn));
            conn !in s.inside && Granted(s, other, key)
  {
    HeldOnlyWhileInside(actions);
    RunKeepsInv(FRESH, actions);
    var s := After(FRESH, actions);
    assert key in s.holds && s.holds[key].depth == 1;
    assert Step(s, Leave(conn)) == Server(s.holds - {key}, s.inside - {conn});
  }

  /** Taking a lock and giving it back leaves the server as it was, also for a connection that still held it. */
  lemma ReturnUndoesEntry(s: Server, conn: nat, key: nat)
    requires Inv(s) && Granted(s, conn, key)
    ensures Step(Step(s, Enter(conn, key)), Leave(conn)) == s
  {
    var t := Step(s, Enter(conn, key));
    assert t.inside - {conn} == s.inside;
    if key in s.holds {
      assert t.holds[key].depth == s.holds[key].depth + 1 >= 2;
      assert Step(t, Leave(conn)).holds == s.holds;
    } else {
      assert t.holds - {key} == s.holds;
    }
  }

  predicate Holds(s: Server, conn: nat, key: nat) {
    key in s.holds && s.holds[key].conn == conn
  }

  /**
   * Whoever is refused changes nothing, whoever is granted is inside, and nobody else's lock or
   * callback is touched.
   */
  lemma OthersAreUndisturbed(s: Server, a: Action, other: nat)
    requires Inv(s) && a.conn != other
    ensures var s' := Step(s, a);
            && (other in s.inside <==> other in s'.inside) && (other in s.inside ==>
                    s'.inside[other] == s.inside[other])
            && (forall key :: Holds(s, other, key) <==> Holds(s', other, key))
            && (forall key :: Holds(s, other, key) ==> s'.holds[key] == s.holds[key])
            && (a.Enter? ==>
                    if Granted(s, a.conn, a.key) then a.conn in s'.inside && s'.inside[a.conn] == a.key else s' == s)
  {
  }

  /** A connection holds a lock once more than its caller, if it has one, will give back. */
  ghost predicate Stuck(s: Server, conn: nat, key: nat) {
    && key in s.holds && s.holds[key].conn == conn
    && s.holds[key].depth >= (if conn in s.inside && s.inside[conn] == key then 2 else 1)
  }

  /**
   * A lost unlock can. The connection goes back to the pool still holding the lock,
   * and until its session ends every other connection is refused.
   */
  lemma {:induction false} LostUnlockRefusesOthers(s: Server, conn: nat, key: nat, other: nat, actions: seq<Action>)
    requires Inv(s) && conn in s.inside && s.inside[conn] == key && other != conn
    requires forall a :: a in actions ==> a != SessionDies(conn)
    ensures Stuck(After(Step(s, LeaveUnlockLost(conn)), actions), conn, key)
    ensures !Granted(After(Step(s, LeaveUnlockLost(conn)), actions), other, key)
  {
    if actions != [] {
      var front, last := actions[..|actions| - 1], actions[|actions| - 1];
      assert last in actions && forall a :: a in front ==> a in actions;
      StepKeepsInv(s, LeaveUnlockLost(conn));
      RunKeepsInv(Step(s, LeaveUnlockLost(conn)), front);
      LostUnlockRefusesOthers(s, conn, key, other, front);
      StuckStays(After(Step(s, LeaveUnlockLost(conn)), front), last, conn, key);
    } else {
      assert s.holds[key].depth >= 1;
    }
  }

  lemma StuckStays(s: Server, a: Action, conn: nat, key: nat)
    requires Inv(s) && Stuck(s, conn, key) && a != SessionDies(conn)
    ensures Stuck(Step(s, a), conn, key)
  {
  }
}
