/** The session driving its pacer: the order of calls that makes the single slot for a finished probe safe. */
module SessionPacing {
  import opened Prelude
  import opened PacerQueues
  import opened ProbeCluster
  import opened LeakyBucket
  import opened LeakyBound
  import opened ProbeRuns
  import opened ProbeCompletion
  import opened LeakyBucketPacing

  class PacedSession {
    const pacer: LeakyBucketPacer
    ghost const start: Rate

    // Everything the session has done with the pacer.
    ghost var log: seq<Action>

    /**
     The pacer is where its log has led it, every cluster it was given is accounted for, and the
     clusters that ended are just those that have reached their targets.
     */
    ghost predicate Valid()
      reads this, pacer
    {
      && pacer.Valid()
      && pacer.View() == RunFrom(NewPacer(start), log)
      && Balanced(pacer.View(), Books())
      && Decided(pacer.View(), Books().fates, Works())
    }

    ghost function Books(): Books
      reads this
    {
      BooksOf(NewPacer(start), log)
    }

    // What was sent for each cluster while it was the active one.
    ghost function Works(): seq<Work>
      reads this
    {
      WorkOf(NewPacer(start), log)
    }

    constructor (initialPacingBitrate: Rate)
      requires initialPacingBitrate >= 0.0
      ensures Valid() && fresh(pacer) && log == [] && start == initialPacingBitrate
    {
      pacer := new LeakyBucketPacer(initialPacingBitrate);
      start, log := initialPacingBitrate, [];
      new;
      ProbesConserved(start, log);
      EndedIffReached(start, log);
    }

    // What a step adds to the log, and to the books.
    lemma Logged(a: Action)
      requires Valid()
      ensures RunFrom(NewPacer(start), log + [a]) == Act(pacer.View(), a)
      ensures BooksOf(NewPacer(start), log + [a]) == Entered(pacer.View(), a, Books())
      ensures Balanced(Act(pacer.View(), a), BooksOf(NewPacer(start), log + [a]))
      ensures Decided(Act(pacer.View(), a), BooksOf(NewPacer(start), log + [a]).fates,
                      WorkOf(NewPacer(start), log + [a]))
    {
      assert (log + [a])[..|log|] == log;
      ProbesConserved(start, log + [a]);
      EndedIffReached(start, log + [a]);
    }

    /**
     A timeout: the pacer sees the queues, a probe may be started, and one finished probe is
     collected. It is reported once, in start order, after reaching its targets, and the slot is
     empty afterwards.
     */
    method HandleTimeout(now: Time, queues: seq<QueueState>, probe: Option<ProbeConfig>)
      returns (request: Option<PaddingRequest>, ended: Option<ClusterId>)
      requires Valid() && (probe.Some? ==> probe.value.targetBitrate >= 0.0)
      modifies this, pacer
      ensures Valid() && log == old(log) + [Tick(now, queues, probe)]
      ensures Books().started == old(Books()).started + AddedId(probe)
      ensures Books().reported == old(Books()).reported + OneId(ended)
      ensures pacer.completedProbe.None? && !pacer.needsTimeoutBeforeNextPoll
      ensures ended.Some? ==>
                exists j :: 0 <= j < |Works()| && Works()[j].config.cluster == ended.value && Reached(Works()[j])
    {
      Logged(Tick(now, queues, probe));
      request := pacer.HandleTimeout(now, queues);
      if probe.Some? {
        pacer.StartProbe(probe.value);
      }
      ended := pacer.CheckProbeComplete();
      log := log + [Tick(now, queues, probe)];
      if ended.Some? {
        ReportedReached(pacer.View(), Books().fates, Works(), ended.value);
      }
    }

    /** A poll: one packet at most, and only while the slot for a finished probe is empty. */
    method PollPacket(now: Time, receipt: Option<Size>) returns (sent: Option<Size>)
      requires Valid() && (receipt.Some? ==> receipt.value >= 0.0)
      modifies this, pacer
      ensures Valid() && log == old(log) + [Poll(now, receipt)] && Books() == old(Books())
      ensures sent.Some? ==> sent == receipt
      ensures sent.Some? ==> !old(pacer.needsTimeoutBeforeNextPoll) && pacer.needsTimeoutBeforeNextPoll
      ensures sent.Some? <==> Sends(old(pacer.View()), Poll(now, receipt))
    {
      Logged(Poll(now, receipt));
      sent := None;
      var polled := pacer.PollQueue();
      if polled.Some? && receipt.Some? {
        pacer.RegisterSend(now, receipt.value);
        sent := receipt;
      }
      log := log + [Poll(now, receipt)];
    }

    method SetRates(pacing: Rate, padding: Rate)
      requires Valid() && pacing >= 0.0 && padding >= 0.0
      modifies this, pacer
      ensures Valid() && log == old(log) + [Action.SetRates(pacing, padding)] && Books() == old(Books())
    {
      Logged(Action.SetRates(pacing, padding));
      pacer.SetPaddingRate(padding);
      pacer.SetPacingRate(pacing);
      log := log + [Action.SetRates(pacing, padding)];
    }

    /** The rate bound, for any stretch of the log of a session. */
    lemma LogIsBounded(n: nat, since: Time, until: Time, rate: Rate, maxPacket: Size)
      requires Valid() && n <= |log| && rate >= 0.0 && maxPacket >= 0.0
      requires SettledAt(start, log[..n], rate) == Some(since)
      requires QuietUntil(RunFrom(NewPacer(start), log[..n]), log[n..], rate, maxPacket) == Some(until)
      ensures Sent(RunFrom(NewPacer(start), log[..n]), log[n..]) <= Allowance(rate, since, until, maxPacket)
    {
      SentIsBounded(start, log[..n], since, log[n..], until, rate, maxPacket);
    }
  }
}
