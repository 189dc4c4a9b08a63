/** Superseded launch intents: a rebase supersedes one so that it is never launched, and a mark that
    comes after launches it. */
module Superseding {
  import opened Basics
  import opened CampaignLifecycle
  import opened Campaigns
  import opened CampaignHistory
  import opened CampaignReplays
  import opened Launches

  /** An applied operation writes a launch of its own, or supersedes an intent that is pending. */
  lemma {:induction false} MoveSpares(r: Registry, id: string, t: Transition, runsInFlight: seq<string>, stamp: Stamp,
                                      closing: Closing, l: string)
    requires id in r.campaigns && id in r.log && Fresh(r, stamp) && IntentsOwned(r.intents, r.campaigns.Keys)
    requires l in r.intents && r.intents[l].state == Superseded
    ensures var w := DecideCommit(r, id, t, None, runsInFlight, stamp, closing).0;
      w.Move? ==> Put(Put(r.intents, w.intent), w.superseded).Keys >= r.intents.Keys
                  && Put(Put(r.intents, w.intent), w.superseded)[l] == r.intents[l]
  {
  }

  lemma {:induction false} CallSpares(r: Registry, c: Call, stamp: Stamp, closing: Closing, l: string)
    requires Sound(r) && Fresh(r, stamp) && l in r.intents && r.intents[l].state == Superseded && !c.Mark?
    ensures var after := Step(r, c, stamp, closing).intents; l in after && after[l] == r.intents[l]
  {
    if c.Transit? && c.campaignId in r.campaigns {
      assert Good(r, c.campaignId);
      MoveSpares(r, c.campaignId, c.transition, [], stamp, closing, l);
    } else if c.ChangeLease? && c.campaignId in r.campaigns {
      assert Good(r, c.campaignId);
      MoveSpares(r, c.campaignId, c.transition, c.runsInFlight, stamp, closing, l);
    }
  }

  /** A superseded intent stays superseded over a call if and only if the call is not a mark of it
      under a key no applied row holds: a mark only records, and asks nothing of the intent's state. */
  lemma {:induction false} SupersededUnlessMarked(r: Registry, c: Call, stamp: Stamp, closing: Closing, l: string)
    requires Sound(r) && Fresh(r, stamp) && l in r.intents && r.intents[l].state == Superseded
    ensures var after := Step(r, c, stamp, closing).intents;
      l in after && (after[l].state == Superseded <==> !(c.Mark? && c.launchId == l && MarkFree(r, l)))
  {
    if !c.Mark? {
      CallSpares(r, c, stamp, closing, l);
    } else if c.launchId in r.intents {
      MarkLaunches(r, c.launchId, c.cycleId, c.actor, stamp, closing);
    } else {
      assert Step(r, c, stamp, closing) == r;
    }
  }

  ghost predicate NeverMarked(r: Registry, calls: seq<(Call, Stamp)>, closing: Closing, l: string)
    decreases calls
  {
    calls != [] ==>
      && !(calls[0].0.Mark? && calls[0].0.launchId == l && MarkFree(r, l))
      && NeverMarked(Step(r, calls[0].0, calls[0].1, closing), calls[1..], closing, l)
  }

  ghost predicate SupersededThroughout(r: Registry, calls: seq<(Call, Stamp)>, closing: Closing, l: string)
    decreases calls
  {
    && l in r.intents && r.intents[l].state == Superseded
    && (calls != [] ==> SupersededThroughout(Step(r, calls[0].0, calls[0].1, closing), calls[1..], closing, l))
  }

  /** Over any run a superseded intent stays superseded throughout if and only if no such mark comes. */
  lemma {:induction false} SupersededExactlyUnlessMarked(r: Registry, calls: seq<(Call, Stamp)>, closing: Closing,
                                                         l: string)
    requires Sound(r) && FreshRun(r, calls, closing) && l in r.intents && r.intents[l].state == Superseded
    ensures SupersededThroughout(r, calls, closing, l) <==> NeverMarked(r, calls, closing, l)
    decreases calls
  {
    if calls == [] {
    } else {
      var r' := Step(r, calls[0].0, calls[0].1, closing);
      SupersededUnlessMarked(r, calls[0].0, calls[0].1, closing, l);
      SoundKept(r, calls[0].0, calls[0].1, closing);
      if r'.intents[l].state == Superseded { SupersededExactlyUnlessMarked(r', calls[1..], closing, l); }
    }
  }

  // --- an example ---

  const CAMPAIGN := Campaign("c", "project", "", Draft, 0, 0, None, None, None)
  const CREATION := Create(CAMPAIGN, "owner", "", "", "k0", None)

  /** A repair is decided on, and waits. */
  const DECISION: Transition := TransitionData(
    OpDecide, "owner", "", "", "k1", Some(LaunchBlocked), None, None, NO_BINDING, None,
    Some(LaunchRequest(Repair, "again")), None, None, None, None, None)

  /** The branch is rebased before the repair is launched, which supersedes it. */
  const REBASE: Transition := TransitionData(
    OpBranchRebased, "launcher", "", "", "k2", Some(AtProposal), None, None, NO_BINDING, None,
    None, Some(AcceptedTree("tree", None, None, None)), None, None, Some("lnc_e1"), None)

  lemma {:induction false} TransitApplies(r: Registry, id: string, t: Transition, stamp: Stamp, closing: Closing)
    requires id in r.campaigns && id in r.log && !t.operation.ChangesTheLease()
    requires Adjudicate(r.campaigns[id], t, AppliedWithKey(r.log[id], t.key)) == Applies
    requires SupersessionRefusal(r.campaigns[id], t, IntentAt(r.intents, t.supersedes)).None?
    ensures var w := DecideMove(r, id, t, None, IntentAt(r.intents, t.supersedes), None, stamp, closing).0;
      Step(r, Transit(id, t), stamp, closing) == Commit(r, id, w)
  {
  }

  /** Nothing in the log holds the key. */
  ghost predicate Unheld(log: seq<Entry>, key: string) {
    forall i :: 0 <= i < |log| ==> log[i].key != key
  }

  lemma {:induction false} UnheldIsNone(log: seq<Entry>, key: string)
    requires Unheld(log, key)
    ensures AppliedWithKey(log, key).None?
  {
    KeyHolder(log, key);
  }

  lemma {:induction false} CreatedExample(closing: Closing)
    ensures var r := Step(EMPTY, CREATION, Stamp("e0", 0), closing);
      && r.campaigns == map["c" := CAMPAIGN] && "c" in r.log && r.intents == map[]
      && |r.log["c"]| == 1 && r.log["c"][0].key == "k0"
  {
  }

  lemma {:induction false} DecidedExample(r: Registry, closing: Closing)
    requires r.campaigns == map["c" := CAMPAIGN] && "c" in r.log && r.intents == map[]
    requires |r.log["c"]| == 1 && r.log["c"][0].key == "k0"
    ensures var r' := Step(r, Transit("c", DECISION), Stamp("e1", 1), closing);
      && "c" in r'.campaigns && r'.campaigns["c"].campaignId == "c" && r'.campaigns["c"].state == LaunchBlocked
      && "c" in r'.log && |r'.log["c"]| == 2 && r'.log["c"][0].key == "k0" && r'.log["c"][1].key == "k1"
      && r'.intents == map["lnc_e1" := Intent("lnc_e1", "c", "e1", Repair, "again", Pending, 1, None, None)]
  {
    assert LaunchIdFor("e1") == "lnc_e1";
    UnheldIsNone(r.log["c"], "k1");
    TransitApplies(r, "c", DECISION, Stamp("e1", 1), closing);
  }

  lemma {:induction false} RebasedExample(r: Registry, closing: Closing)
    requires "c" in r.campaigns && r.campaigns["c"].campaignId == "c" && r.campaigns["c"].state == LaunchBlocked
    requires "c" in r.log && |r.log["c"]| == 2 && r.log["c"][0].key == "k0" && r.log["c"][1].key == "k1"
    requires r.intents == map["lnc_e1" := Intent("lnc_e1", "c", "e1", Repair, "again", Pending, 1, None, None)]
    ensures var r' := Step(r, Transit("c", REBASE), Stamp("e2", 2), closing);
      && "c" in r'.log && Unheld(r'.log["c"], MarkKey("lnc_e1"))
      && r'.intents == map["lnc_e1" := Intent("lnc_e1", "c", "e1", Repair, "again", Superseded, 1, None, None)]
  {
    UnheldIsNone(r.log["c"], "k2");
    TransitApplies(r, "c", REBASE, Stamp("e2", 2), closing);
    assert |MarkKey("lnc_e1")| > 2;
  }

  /** A launcher that read the repair's intent pending, and marks it after the rebase, launches it. */
  lemma {:induction false} SupersededIsLaunchedExample(closing: Closing)
    ensures var r1 := Step(EMPTY, CREATION, Stamp("e0", 0), closing);
      var r2 := Step(r1, Transit("c", DECISION), Stamp("e1", 1), closing);
      var r3 := Step(r2, Transit("c", REBASE), Stamp("e2", 2), closing);
      var r4 := Step(r3, Mark("lnc_e1", "cycle", "launcher"), Stamp("e3", 3), closing);
      && "lnc_e1" in r3.intents && r3.intents["lnc_e1"].state == Superseded
      && "lnc_e1" in r4.intents && r4.intents["lnc_e1"].state == Launched
  {
    var r1 := Step(EMPTY, CREATION, Stamp("e0", 0), closing);
    var r2 := Step(r1, Transit("c", DECISION), Stamp("e1", 1), closing);
    var r3 := Step(r2, Transit("c", REBASE), Stamp("e2", 2), closing);
    CreatedExample(closing);
    DecidedExample(r1, closing);
    RebasedExample(r2, closing);
    SoundKept(EMPTY, CREATION, Stamp("e0", 0), closing);
    SoundKept(r1, Transit("c", DECISION), Stamp("e1", 1), closing);
    SoundKept(r2, Transit("c", REBASE), Stamp("e2", 2), closing);
    UnheldIsNone(r3.log["c"], MarkKey("lnc_e1"));
    MarkLaunches(r3, "lnc_e1", "cycle", "launcher", Stamp("e3", 3), closing);
  }
}
