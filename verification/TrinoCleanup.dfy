/**
  Stopping the queries of one dbt attempt: list, cancel, and wait until the listing stays empty.
  Times are whole clock ticks; query ids are numbers whose order is the order of their text.
 */
module TrinoCleanup {
  import opened Sequences

  type QueryId = nat

  const TERMINAL_STATES := {"FINISHED", "FAILED"}

  /** One element of the server's query list; `state` is upper case. */
  datatype Entry = NotAnObject | Query(user: Option<string>, tags: Option<set<string>>, state: string,
      id: Option<QueryId>)

  datatype Failure = DeadlinePassed | RequestFailed

  datatype Cleanup = Stopped(cancelled: seq<QueryId>) | Unconfirmed(why: Failure)

  predicate Matches(e: Entry, user: string, tag: string) {
    e.Query? && e.user == Some(user) && e.tags.Some? && tag in e.tags.value && e.state !in TERMINAL_STATES
  }

  /** The ids of the attempt's active queries, unless the answer is malformed. */
  method MatchingActive(entries: seq<Entry>, user: string, tag: string) returns (ids: Option<set<QueryId>>)
    ensures ids.None? <==> exists e :: e in entries && (e.NotAnObject? || (Matches(e, user, tag) && e.id.None?))
    ensures ids.Some? ==> forall id :: id in ids.value <==>
      exists e :: e in entries && Matches(e, user, tag) && e.id == Some(id)
    // An active query is one of the user, with the attempt's tag, that neither finished nor failed.
    ensures forall e :: e in entries ==>
      (Matches(e, user, tag) <==>
        && e.Query? && e.user == Some(user) && e.tags.Some? && tag in e.tags.value
        && e.state != "FAILED" && e.state != "FINISHED")
  {
    var found: set<QueryId> := {};
    for i := 0 to |entries|
      invariant forall e :: e in entries[..i] ==> !e.NotAnObject? && (Matches(e, user, tag) ==> e.id.Some?)
      invariant forall id :: id in found <==> exists e :: e in entries[..i] && Matches(e, user, tag) && e.id == Some(id)
    {
      var e := entries[i];
      assert entries[..i + 1] == entries[..i] + [e];
      if e.NotAnObject? {
        return None;
      }
      if Matches(e, user, tag) {
        if e.id.None? {
          return None;
        }
        found := found + {e.id.value};
      }
    }
    assert entries[..|entries|] == entries;
    return Some(found);
  }

  function UnionOf(listings: seq<set<QueryId>>): set<QueryId> {
    if listings == [] then {} else UnionOf(Front(listings)) + Last(listings)
  }

  lemma {:induction false} OneMoreListing(listings: seq<set<QueryId>>, ids: set<QueryId>)
    ensures UnionOf(listings + [ids]) == UnionOf(listings) + ids
  {
    assert Front(listings + [ids]) == listings;
  }

  /** The last `n` listings were empty. */
  ghost predicate QuietFor(listings: seq<set<QueryId>>, n: nat) {
    n <= |listings| && forall k :: |listings| - n <= k < |listings| ==> listings[k] == {}
  }

  lemma LouderFor(listings: seq<set<QueryId>>, n: nat, m: nat)
    requires n <= m && !QuietFor(listings, n)
    ensures !QuietFor(listings, m)
  {
  }

  lemma QuietGrows(listings: seq<set<QueryId>>, n: nat)
    requires QuietFor(listings, n)
    ensures QuietFor(listings + [{}], n + 1)
  {
  }

  lemma QuietFromNow(listings: seq<set<QueryId>>)
    ensures QuietFor(listings, 0) && !QuietFor([], 1)
  {
  }

  lemma QuietNext(listings: seq<set<QueryId>>, ids: set<QueryId>, n: nat)
    requires !QuietFor(listings, n)
    ensures !QuietFor(listings + [ids], n + 1)
    ensures ids != {} ==> !QuietFor(listings + [ids], 1)
  {
    var all := listings + [ids];
    if n <= |listings| {
      var k :| |listings| - n <= k < |listings| && listings[k] != {};
      assert all[k] != {};
    }
    assert all[|listings|] == ids;
  }

  /** Exactly these ids were sent a DELETE, each of them one. */
  ghost predicate SentOnce(deletes: seq<QueryId>, ids: set<QueryId>) {
    Distinct(deletes) && Elements(deletes) == ids
  }

  /** The time `n` full waits between polls take. */
  function PollTime(n: nat, poll: int): int {
    if n == 0 then 0 else PollTime(n - 1, poll) + poll
  }

  lemma {:induction false} PollTimeIsProduct(n: nat, poll: int)
    ensures PollTime(n, poll) == n * poll
  {
    if n > 0 {
      PollTimeIsProduct(n - 1, poll);
    }
  }

  class TrinoAttemptQueryController {
    const user: string
    const tag: string
    const timeout: int
    const poll: int
    const quietPolls: nat
    /** The monotonic clock, and everything asked of the server since the controller was made. */
    var now: int
    ghost var listings: seq<set<QueryId>>
    ghost var deletes: seq<QueryId>
    /** Every request so far was answered as it should be, and no time passed but in sleep. */
    ghost var answered: bool
    ghost var prompt: bool

    ghost predicate Valid()
      reads this
    {
      timeout > 0 && poll > 0 && quietPolls >= 1
    }

    constructor (user: string, tag: string, timeout: int, poll: int, quietPolls: nat, now: int)
      requires timeout > 0 && poll > 0 && quietPolls >= 1
      ensures Valid() && listings == [] && deletes == [] && answered && prompt
      ensures this.timeout == timeout && this.poll == poll && this.quietPolls == quietPolls && this.now == now
    {
      this.user, this.tag, this.timeout, this.poll, this.quietPolls, this.now := user, tag, timeout, poll, quietPolls,
          now;
      listings, deletes, answered, prompt := [], [], true, true;
    }

    method TimePasses()
      modifies this`now, this`prompt
      ensures now >= old(now) && (prompt ==> old(prompt) && now == old(now))
    {
      var later: int := *;
      if later > now {
        now, prompt := later, false;
      }
    }

    method Sleep(duration: int)
      requires duration > 0
      modifies this`now, this`prompt
      ensures now >= old(now) + duration && (prompt ==> old(prompt) && now == old(now) + duration)
    {
      TimePasses();
      now := now + duration;
    }

    /** GET of the query list; the request may fail or its answer be malformed. */
    method ListActive() returns (ids: Option<set<QueryId>>)
      modifies this`now, this`prompt, this`answered, this`listings
      ensures now >= old(now) && (prompt ==> old(prompt) && now == old(now))
      ensures (answered ==> old(answered)) && (ids.None? ==> !answered)
      ensures listings == if ids.Some? then old(listings) + [ids.value] else old(listings)
    {
      TimePasses();
      if * {
        answered := false;
        return None;
      }
      var entries: seq<Entry> := *;
      ids := MatchingActive(entries, user, tag);
      if ids.Some? {
        listings := listings + [ids.value];
      } else {
        answered := false;
      }
    }

    /** DELETE of one query; a query that ended in the meantime counts as cancelled. */
    method Cancel(id: QueryId) returns (ok: bool)
      modifies this`now, this`prompt, this`answered, this`deletes
      ensures now >= old(now) && (prompt ==> old(prompt) && now == old(now))
      ensures (answered ==> old(answered)) && (ok || !answered)
      ensures deletes == old(deletes) + [id]
    {
      TimePasses();
      deletes := deletes + [id];
      if * {
        answered := false;
        return false;
      }
      return true;
    }

    /** Sends a DELETE for each listed query that has not had one. */
    method CancelNew(ids: set<QueryId>, cancelled: set<QueryId>) returns (ok: bool, sent: set<QueryId>)
      requires SentOnce(deletes, cancelled)
      modifies this`now, this`prompt, this`answered, this`deletes
      ensures now >= old(now) && (prompt ==> old(prompt) && now == old(now))
      ensures (answered ==> old(answered)) && (ok || !answered)
      ensures SentOnce(deletes, sent) && sent <= cancelled + ids
      ensures ok ==> sent == cancelled + ids
    {
      sent := cancelled;
      var order := Sorted(ids);
      SortedSet(ids);
      hide SentOnce, Distinct, Elements;
      NoneOf(order);
      for i := 0 to |order|
        invariant now >= old(now) && (prompt ==> old(prompt) && now == old(now)) && (answered ==> old(answered))
        invariant SentOnce(deletes, sent)
        invariant sent == cancelled + Elements(order[..i])
      {
        OneMoreOf(order, i);
        if order[i] !in sent {
          SendOneMore(deletes, sent, order[i]);
          sent := sent + {order[i]};
          ok := Cancel(order[i]);
          if !ok {
            SubsetOf(order, i + 1, ids);
            return;
          }
        }
      }
      assert order[..|order|] == order;
      ok := true;
    }

    /**
      Cancels the attempt's active queries and returns once the listing has been empty often enough
      in a row. It ends within the deadline's number of polls, whatever the server answers.
     */
    method CancelAndWait() returns (result: Cleanup)
      requires Valid() && listings == [] && deletes == []
      modifies this
      ensures now >= old(now) && (answered ==> old(answered)) && (prompt ==> old(prompt))
      // It returns only after enough consecutive empty listings, having cancelled every id ever listed, once.
      ensures result.Stopped? ==>
        && QuietFor(listings, quietPolls) && SentOnce(deletes, UnionOf(listings))
        && result.cancelled == Sorted(UnionOf(listings))
      // No id is ever cancelled twice, and none that was not listed.
      ensures Distinct(deletes) && Elements(deletes) <= UnionOf(listings)
      // The number of polls is bounded.
      ensures |listings| > 0 ==> PollTime(|listings| - 1, poll) < timeout
      // While requests are answered, only the deadline makes it give up, having polled all the time without quiet.
      ensures result == Unconfirmed(RequestFailed) ==> !answered
      ensures result == Unconfirmed(DeadlinePassed) ==> now >= old(now) + timeout && !QuietFor(listings, quietPolls)
      ensures result == Unconfirmed(DeadlinePassed) && prompt ==> PollTime(|listings|, poll) >= timeout
    {
      var deadline := now + timeout;
      var cancelled: set<QueryId> := {};
      var quiet := 0;
      ghost var slept := 0;
      assert SentOnce([], {});
      hide SentOnce, Distinct, Elements;
      QuietFromNow(listings);
      hide Sorted, UnionOf, QuietFor;
      while true
        invariant Valid() && now >= old(now) && (answered ==> old(answered)) && (prompt ==> old(prompt))
        invariant prompt ==> now == old(now) + Min(slept, timeout)
        invariant !QuietFor(listings, quiet + 1)
        invariant SentOnce(deletes, cancelled) && cancelled == UnionOf(listings)
        invariant QuietFor(listings, quiet) && quiet < quietPolls
        invariant slept == PollTime(|listings|, poll) && (slept <= now - old(now) || now >= deadline)
        invariant |listings| > 0 ==> PollTime(|listings| - 1, poll) < timeout
        decreases deadline - now
      {
        SentIsListed(deletes, cancelled, cancelled);
        LouderFor(listings, quiet + 1, quietPolls);
        if deadline - now <= 0 {
          return Unconfirmed(DeadlinePassed);
        }
        ghost var earlier := listings;
        var ids := ListActive();
        if ids.None? {
          return Unconfirmed(RequestFailed);
        }
        OneMoreListing(earlier, ids.value);
        QuietNext(earlier, ids.value, quiet + 1);
        slept := slept + poll;
        if ids.value != {} {
          quiet := 0;
          QuietFromNow(listings);
          var ok;
          ok, cancelled := CancelNew(ids.value, cancelled);
          if !ok {
            SentIsListed(deletes, cancelled, UnionOf(listings));
            return Unconfirmed(RequestFailed);
          }
        } else {
          QuietGrows(earlier, quiet);
          quiet := quiet + 1;
          assert cancelled + {} == cancelled;
          SentIsListed(deletes, cancelled, cancelled);
          if quiet >= quietPolls {
            return Stopped(Sorted(cancelled));
          }
        }
        if deadline - now > 0 {
          Sleep(Min(poll, deadline - now));
        }
      }
    }
  }

  lemma SentIsListed(deletes: seq<QueryId>, sent: set<QueryId>, listed: set<QueryId>)
    requires SentOnce(deletes, sent) && sent <= listed
    ensures Distinct(deletes) && Elements(deletes) <= listed
  {
  }

  lemma SendOneMore(deletes: seq<QueryId>, sent: set<QueryId>, id: QueryId)
    requires SentOnce(deletes, sent) && id !in sent
    ensures SentOnce(deletes + [id], sent + {id})
  {
    assert forall k :: 0 <= k < |deletes| ==> deletes[k] in Elements(deletes);
  }

  lemma NoneOf(order: seq<QueryId>)
    ensures Elements(order[..0]) == {}
  {
  }

  lemma OneMoreOf(order: seq<QueryId>, i: nat)
    requires i < |order|
    ensures Elements(order[..i + 1]) == Elements(order[..i]) + {order[i]}
  {
    assert order[..i + 1] == order[..i] + [order[i]];
  }

  lemma SubsetOf(order: seq<QueryId>, n: nat, ids: set<QueryId>)
    requires n <= |order| && Elements(order) == ids
    ensures Elements(order[..n]) <= ids
  {
    assert forall x :: x in order[..n] ==> x in order;
  }

  // What a failed attempt is reported as

  /** How the dbt process ended; everything but `NotFound` means the attempt was started. */
  datatype Run = NotFound | TimedOut | LocalStopFailed | Interrupted | Exited(code: int)

  datatype StepOutcome = Succeeded | BuildError | RemoteCleanupError | OtherError

  /** The orchestrator fails the task for good on this error, and retries on every other. */
  predicate Retryable(outcome: StepOutcome) {
    outcome.BuildError? || outcome.OtherError?
  }

  predicate StartedAndFailed(run: Run) {
    match run
    case NotFound => false
    case Exited(code) => code != 0
    case _ => true
  }

  method RunDbtCommandStep(controller: TrinoAttemptQueryController, run: Run, resultsAccepted: bool)
      returns (outcome: StepOutcome, ghost cleanup: Option<Cleanup>)
    requires controller.Valid() && controller.listings == [] && controller.deletes == []
    modifies controller
    // Remote queries are waited for exactly when a started attempt failed.
    ensures cleanup.Some? <==> StartedAndFailed(run)
    ensures cleanup.Some? && cleanup.value.Stopped? ==>
      QuietFor(controller.listings, controller.quietPolls) && SentOnce(controller.deletes, UnionOf(controller.listings))
    // After a start that failed, a retry is allowed exactly when the wait returned and the local process is gone.
    ensures StartedAndFailed(run) ==>
      (Retryable(outcome) <==> cleanup.value.Stopped? && !run.LocalStopFailed?)
    ensures StartedAndFailed(run) ==> outcome != Succeeded
    ensures outcome == Succeeded <==> run == Exited(0) && resultsAccepted
    // A command that never started, or ended well with results nobody accepts, is retried without any wait.
    ensures run == NotFound || (run == Exited(0) && !resultsAccepted) ==>
      outcome == BuildError && controller.listings == [] && controller.deletes == []
  {
    cleanup := None;
    match run {
      case NotFound =>
        return BuildError, None;
      case Exited(code) =>
        if code == 0 {
          return if resultsAccepted then Succeeded else BuildError, None;
        }
      case _ =>
    }
    var stopped := controller.CancelAndWait();
    cleanup := Some(stopped);
    if stopped.Unconfirmed? {
      return RemoteCleanupError, cleanup;
    }
    match run {
      case TimedOut => outcome := BuildError;
      case LocalStopFailed => outcome := RemoteCleanupError;
      case Interrupted => outcome := OtherError;
      case _ => outcome := BuildError;
    }
  }
}
