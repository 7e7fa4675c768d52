/** The pool of server sessions (src/sessions.ts). A session is its id; who has timed out is up to the clock. */
module ServerSessions {
  import opened Common

  /** What the topology and the clock say at the time of a call. */
  datatype Conditions = Conditions(timedOut: set<nat>, loadBalanced: bool, hasTimeout: bool)

  /** The pool from its first session that has not timed out. */
  function Usable(pool: seq<nat>, timedOut: set<nat>): seq<nat> {
    if pool == [] || pool[0] !in timedOut then pool else Usable(pool[1..], timedOut)
  }

  /** The pool without the timed-out sessions at its end. */
  function Trimmed(pool: seq<nat>, timedOut: set<nat>): seq<nat> {
    if pool == [] || pool[|pool| - 1] !in timedOut then pool else Trimmed(pool[..|pool| - 1], timedOut)
  }

  function Candidates(pool: seq<nat>, now: Conditions): seq<nat> {
    if now.loadBalanced then pool else Usable(pool, now.timedOut)
  }

  function Released(pool: seq<nat>, session: nat, dirty: bool, now: Conditions): seq<nat> {
    if !now.hasTimeout then (if now.loadBalanced then [session] + pool else pool)
    else
      var kept := Trimmed(pool, now.timedOut);
      if session in now.timedOut || dirty then kept else [session] + kept
  }

  /** What is skipped has timed out, and what is found has not. */
  lemma {:induction false} UsableFinds(pool: seq<nat>, timedOut: set<nat>)
    ensures var found := Usable(pool, timedOut); var skipped := |pool| - |found|;
            && 0 <= skipped && found == pool[skipped..]
            && (forall i :: 0 <= i < skipped ==> pool[i] in timedOut)
            && (found != [] ==> found[0] !in timedOut)
  {
    if pool != [] && pool[0] in timedOut {
      UsableFinds(pool[1..], timedOut);
      var found := Usable(pool, timedOut);
      assert pool[1..][|pool| - 1 - |found|..] == pool[|pool| - |found|..];
      forall i | 1 <= i < |pool| - |found|
        ensures pool[i] in timedOut
      {
        assert pool[i] == pool[1..][i - 1];
      }
    }
  }

  lemma {:induction false} TrimmedKeeps(pool: seq<nat>, timedOut: set<nat>)
    ensures var kept := Trimmed(pool, timedOut);
            && kept <= pool
            && (forall i :: |kept| <= i < |pool| ==> pool[i] in timedOut)
            && (kept != [] ==> kept[|kept| - 1] !in timedOut)
  {
    if pool != [] && pool[|pool| - 1] in timedOut {
      var init := pool[..|pool| - 1];
      TrimmedKeeps(init, timedOut);
      forall i | |Trimmed(pool, timedOut)| <= i < |pool|
        ensures pool[i] in timedOut
      {
        assert i < |init| ==> pool[i] == init[i];
      }
    }
  }

  /** A session is made only if every pooled one has timed out; behind a load balancer, only if none is pooled. */
  lemma CandidatesFind(pool: seq<nat>, now: Conditions)
    ensures var found := Candidates(pool, now);
            && |found| <= |pool| && found == pool[|pool| - |found|..]
            && (now.loadBalanced ==> found == pool)
            && (!now.loadBalanced ==> (found == [] <==> forall i :: 0 <= i < |pool| ==> pool[i] in now.timedOut))
            && (!now.loadBalanced && found != [] ==> found[0] !in now.timedOut)
  {
    UsableFinds(pool, now.timedOut);
    var found := Usable(pool, now.timedOut);
    if found != [] {
      assert pool[|pool| - |found|] == found[0];
    }
  }

  /**
   * What becomes of a session that is released: it is pooled, at the front, exactly if it is neither timed out nor
   * dirty. No usable session leaves the pool. Without a known timeout it is pooled behind a load balancer only.
   */
  lemma ReleasedKeeps(pool: seq<nat>, session: nat, dirty: bool, now: Conditions)
    requires session !in pool
    ensures var after := Released(pool, session, dirty, now);
            && (session in after <==> if now.hasTimeout then session !in now.timedOut && !dirty else now.loadBalanced)
            && (session in after ==> after[0] == session)
            && (forall s :: s in pool && s !in now.timedOut ==> s in after)
            && (forall s :: s in after ==> s in pool || s == session)
  {
    TrimmedKeeps(pool, now.timedOut);
    var kept := Trimmed(pool, now.timedOut);
    assert forall s :: s in kept ==> s in pool;
    forall s | s in pool && s !in now.timedOut
      ensures s in kept
    {
      var i :| 0 <= i < |pool| && pool[i] == s;
      assert i < |kept| && kept[i] == s;
    }
  }

  class ServerSessionPool {
    var sessions: seq<nat>

    constructor ()
      ensures sessions == []
    {
      sessions := [];
    }

    /** The first usable session leaves the pool; none is left if a new one has to be made. */
    method Acquire(now: Conditions) returns (r: Option<nat>)
      modifies this
      ensures var found := Candidates(old(sessions), now);
              if found == [] then r == None && sessions == [] else r == Some(found[0]) && sessions == found[1..]
    {
      while sessions != []
        invariant Candidates(sessions, now) == Candidates(old(sessions), now)
        decreases |sessions|
      {
        var session := sessions[0];
        sessions := sessions[1..];
        if now.loadBalanced || session !in now.timedOut {
          return Some(session);
        }
      }
      return None;
    }

    method Release(session: nat, dirty: bool, now: Conditions)
      modifies this
      ensures sessions == Released(old(sessions), session, dirty, now)
    {
      if now.loadBalanced && !now.hasTimeout {
        sessions := [session] + sessions;
      }
      if !now.hasTimeout {
        return;
      }
      while sessions != []
        invariant Trimmed(sessions, now.timedOut) == Trimmed(old(sessions), now.timedOut)
        decreases |sessions|
      {
        if sessions[|sessions| - 1] in now.timedOut {
          sessions := sessions[..|sessions| - 1];
        } else {
          break;
        }
      }
      if session !in now.timedOut {
        if dirty {
          return;
        }
        sessions := [session] + sessions;
      }
    }
  }
}
