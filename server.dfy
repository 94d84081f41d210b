/** The voting server's state and its three socket events (`vote`,
    `requestUpdate`) and the `/reset` route: the stored votes and the round
    number, updated in place. */
module Server {
  import opened Wrappers
  import opened Ballot
  import opened Aggregate
  import Engine

  /** The acknowledgement a `vote` event sends back. */
  datatype Ack = OK | ERROR

  /** The store after one `vote` event: a submission that passes validation
      is appended, any other leaves the store as it was. */
  function Accept(votes: seq<Vote>, data: Submission): seq<Vote>
  {
    match Validate(data)
    case None => votes
    case Some(v) => votes + [v]
  }

  /** The store after a round of submissions, starting from the empty store
      that the server begins with and that `/reset` returns to. */
  function Replay(subs: seq<Submission>): seq<Vote>
  {
    if subs == [] then [] else Accept(Replay(subs[..|subs| - 1]), subs[|subs| - 1])
  }

  /** How many of the submissions pass validation. */
  function AcceptedCount(subs: seq<Submission>): nat
  {
    if subs == [] then 0
    else AcceptedCount(subs[..|subs| - 1]) + (if WellFormed(subs[|subs| - 1]) then 1 else 0)
  }

  /** Accepting never drops or alters a stored vote, and it adds exactly the
      validated record when the submission passes. */
  lemma {:induction false} AcceptKeepsStore(votes: seq<Vote>, data: Submission)
    ensures var r := Accept(votes, data);
      && |r| == |votes| + (if WellFormed(data) then 1 else 0)
      && r[..|votes|] == votes
      && (WellFormed(data) ==> r[|votes|] == Validate(data).value)
  {
    if WellFormed(data) {
      assert (votes + [Validate(data).value])[..|votes|] == votes;
    }
  }

  /** The round's `total` is the number of submissions that passed
      validation. */
  lemma {:induction false} ReplayCountsAccepted(subs: seq<Submission>)
    ensures |Replay(subs)| == AcceptedCount(subs)
  {
    if subs != [] {
      ReplayCountsAccepted(subs[..|subs| - 1]);
      AcceptKeepsStore(Replay(subs[..|subs| - 1]), subs[|subs| - 1]);
    }
  }

  /** Some submission of the round passed validation without dimension
      data. */
  predicate AcceptedWithoutDimensions(subs: seq<Submission>) {
    exists i :: 0 <= i < |subs| && WellFormed(subs[i]) && subs[i].dimensions.None?
  }

  /** A stored vote lacks dimension data exactly when some accepted
      submission of the round came without it. */
  lemma {:induction false} ReplayLacksDimensions(subs: seq<Submission>)
    ensures SomeVoteLacksDimensions(Replay(subs)) <==> AcceptedWithoutDimensions(subs)
  {
    if subs != [] {
      var n := |subs| - 1;
      var prefix, last := subs[..n], subs[n];
      ReplayLacksDimensions(prefix);
      var before := Replay(prefix);
      var after := Replay(subs);
      AcceptKeepsStore(before, last);
      assert after == Accept(before, last);
      if SomeVoteLacksDimensions(after) {
        var k :| 0 <= k < |after| && after[k].dimensions.None?;
        if k < |before| {
          assert after[k] == before[k];
          var i :| 0 <= i < |prefix| && WellFormed(prefix[i]) && prefix[i].dimensions.None?;
          assert subs[i] == prefix[i];
        } else {
          assert WellFormed(subs[n]) && subs[n].dimensions.None?;
        }
      }
      if AcceptedWithoutDimensions(subs) {
        var i :| 0 <= i < |subs| && WellFormed(subs[i]) && subs[i].dimensions.None?;
        if i < n {
          assert prefix[i] == subs[i];
          var k :| 0 <= k < |before| && before[k].dimensions.None?;
          assert after[k] == before[k];
        } else {
          assert after[|before|] == Validate(last).value;
        }
      }
    }
  }

  /** A round's statistics fail exactly when an accepted submission came
      without dimension data; from then on every computation fails until the
      store is reset. */
  lemma {:induction false} RoundStatsFail(subs: seq<Submission>)
    ensures StatsOf(Replay(subs)).Err? <==> AcceptedWithoutDimensions(subs)
  {
    ReplayLacksDimensions(subs);
  }

  /** Once the statistics fail they keep failing, whatever is submitted next. */
  lemma {:induction false} FailurePersists(votes: seq<Vote>, data: Submission)
    requires StatsOf(votes).Err?
    ensures StatsOf(Accept(votes, data)).Err?
  {
    AcceptKeepsStore(votes, data);
    var r := Accept(votes, data);
    var k :| 0 <= k < |votes| && votes[k].dimensions.None?;
    assert r[k] == votes[k];
  }

  /** A valid submission without dimension data is stored and makes the
      statistics fail. */
  lemma {:induction false} MissingDimensionsFails(votes: seq<Vote>, data: Submission)
    requires WellFormed(data) && data.dimensions.None?
    ensures StatsOf(Accept(votes, data)).Err?
  {
    AcceptKeepsStore(votes, data);
    assert Accept(votes, data)[|votes|].dimensions.None?;
  }

  /** The server process: the votes of the current round and the round
      number that the QR-code URL carries as `vid`. */
  class VoteServer {
    var votes: seq<Vote>
    var currentVoteId: nat

    /** Start-up: no votes, round 1. */
    constructor ()
      ensures votes == [] && currentVoteId == 1
    {
      votes := [];
      currentVoteId := 1;
    }

    /** The `vote` event. An invalid submission is refused with ERROR and
        not stored. A valid one is stored; then the new statistics are
        broadcast and OK is sent, or, when they cannot be computed, ERROR is
        sent and nothing is broadcast. */
    method Submit(data: Submission) returns (ack: Ack, update: Option<Stats>)
      modifies this
      ensures votes == Accept(old(votes), data)
      ensures currentVoteId == old(currentVoteId)
      ensures update.Some? <==> WellFormed(data) && StatsOf(votes).Ok?
      ensures update.Some? ==> StatsOf(votes) == Ok(update.value)
      ensures ack == OK <==> update.Some?
    {
      var v := Validate(data);
      if v.None? {
        return ERROR, None;
      }
      votes := votes + [v.value];
      ack, update := Publish();
    }

    /** The tail of the `vote` event once the submission is stored: the
        statistics are computed and broadcast with OK, or ERROR is sent and
        nothing is broadcast when they cannot be computed. */
    method Publish() returns (ack: Ack, update: Option<Stats>)
      ensures update.Some? <==> StatsOf(votes).Ok?
      ensures update.Some? ==> StatsOf(votes) == Ok(update.value)
      ensures ack == OK <==> update.Some?
    {
      var stats := Engine.ProcessStats(votes);
      if stats.Err? {
        return ERROR, None;
      }
      return OK, Some(stats.value);
    }

    /** The `requestUpdate` event: the statistics of the stored votes, sent
        to the asking client; the store is left as it is. */
    method RequestUpdate() returns (r: Result<Stats, StatsError>)
      ensures r == StatsOf(votes)
    {
      r := Engine.ProcessStats(votes);
    }

    /** The `/reset` route: a new round with an empty store. */
    method Reset()
      modifies this
      ensures votes == [] && currentVoteId == old(currentVoteId) + 1
    {
      votes := [];
      currentVoteId := currentVoteId + 1;
    }
  }
}
