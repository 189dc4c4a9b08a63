/** Which writes the locks keep apart: two sessions ready to commit never change the same thing. */
module Serialized {
  import opened Basics
  import opened LockOrder

  /** A session holds every lock it has passed; a holder, every campaign's. */
  ghost predicate HoldsPassed(s: Session) {
    forall i :: 0 <= i < s.next && i < |Program(s.op)| && (s.op.Hold? ==> Program(s.op)[i].resource.CampaignRow?) ==>
      Program(s.op)[i] in s.held
  }

  ghost predicate AllHold(w: World) {
    Exclusive(w) && forall s :: s in w.sessions ==> HoldsPassed(w.sessions[s])
  }

  /** What an event makes of a session. */
  ghost predicate Becomes(s: Session, next: Session) {
    || next == s
    || (s.Waiting() && next == s.(next := s.next + 1, held := s.held + {s.Wants()}))
    || (s.op.Hold? && next == s.(held := set l | l in s.held && l.resource.CampaignRow?))
  }

  lemma {:induction false} SessionBecomes(w: World, e: Event, s: nat)
    requires Enabled(w, e) && s in After(w, e).sessions
    ensures s in w.sessions ==> Becomes(w.sessions[s], After(w, e).sessions[s])
    ensures s !in w.sessions ==> After(w, e).sessions[s].next == 0
  {
  }

  lemma {:induction false} BecomesHeld(s: Session, next: Session)
    requires HoldsPassed(s) && Becomes(s, next)
    ensures HoldsPassed(next)
  {
  }

  lemma {:induction false} EventKeepsHeld(w: World, e: Event)
    requires AllHold(w) && Enabled(w, e)
    ensures AllHold(After(w, e))
  {
    EventKeepsExclusive(w, e);
    forall s | s in After(w, e).sessions
      ensures HoldsPassed(After(w, e).sessions[s])
    {
      SessionBecomes(w, e, s);
      if s in w.sessions { BecomesHeld(w.sessions[s], After(w, e).sessions[s]); }
    }
  }

  lemma {:induction false} RunKeepsHeld(w: World, events: seq<Event>)
    requires AllHold(w) && Happens(w, events)
    ensures AllHold(AfterAll(w, events))
    decreases events
  {
    if events == [] {
    } else {
      EventKeepsHeld(w, events[0]);
      RunKeepsHeld(After(w, events[0]), events[1..]);
    }
  }

  // --- what each operation changes and relies on ---

  /** The operation changes the campaign, or holds it still. */
  ghost predicate OwnsCampaign(op: Op, id: string) {
    match op
    case CreateCampaign(mine) => id == mine
    case Transition(mine, _) => id == mine
    case Refuse(mine) => id == mine
    case ChangeLease(mine) => id == mine
    case MarkLaunched(mine, _) => id == mine
    case Hold(mine, _, _, _) => id in mine
    case _ => false
  }

  /** It may change the launch intent. */
  ghost predicate OwnsIntent(op: Op, launchId: string) {
    match op
    case Transition(_, supersedes) => supersedes == Some(launchId)
    case MarkLaunched(_, mine) => launchId == mine
    case _ => false
  }

  /** What must not be done by two at once: changing a campaign, or assessing one that changes; changing
      the lease; an intent; a Project, or recording a revision or an assessment of one that changes;
      two revisions or two assessments of a Project; and two writes under one key. */
  ghost predicate Collide(a: Op, b: Op) {
    || (exists id :: OwnsCampaign(a, id) && (OwnsCampaign(b, id) || (b.Assess? && b.assessed == id)))
    || (a.ChangeLease? && b.ChangeLease?)
    || (exists l :: OwnsIntent(a, l) && OwnsIntent(b, l))
    || (a.WriteProject? && (b.WriteProject? || b.Revise? || b.Assess?) && a.projectId == b.projectId)
    || (a.Revise? && b.Revise? && a.project == b.project)
    || (a.Assess? && b.Assess? && a.project == b.project)
    || ((a.Revise? || a.Assess?) && (b.Revise? || b.Assess?) && a.key == b.key)
  }

  lemma {:induction false} ReadyHolds(s: Session, i: nat)
    requires HoldsPassed(s) && !s.Waiting() && i < |Program(s.op)| && !s.op.Hold?
    ensures Program(s.op)[i] in s.held
  {
  }

  lemma {:induction false} OwnerHolds(s: Session, id: string)
    requires HoldsPassed(s) && !s.Waiting() && OwnsCampaign(s.op, id)
    ensures Takes(CampaignRow(id)) in s.held
  {
    if s.op.Hold? {
      var ids := s.op.campaignIds;
      var i :| 0 <= i < |ids| && ids[i] == id;
      assert Program(s.op)[i] == CampaignRows(ids)[i];
    } else {
      ReadyHolds(s, 0);
    }
  }

  lemma {:induction false} TakerHolds(s: Session, launchId: string)
    requires HoldsPassed(s) && !s.Waiting() && OwnsIntent(s.op, launchId)
    ensures Takes(IntentRow(launchId)) in s.held
  {
    ReadyHolds(s, 1);
  }

  lemma {:induction false} WriterHolds(s: Session)
    requires HoldsPassed(s) && !s.Waiting()
    ensures s.op.ChangeLease? ==> Takes(LeaseRow) in s.held
    ensures s.op.WriteProject? ==> Takes(ProjectRow(s.op.projectId)) in s.held
    ensures s.op.Revise? ==> {Takes(KeyLock(s.op.key)), Takes(ProjectLock(s.op.project))} <= s.held
    ensures s.op.Assess? ==> {Takes(KeyLock(s.op.key)), Takes(AssessmentsLock(s.op.project))} <= s.held
    ensures s.op.Revise? || s.op.Assess? ==> Shares(ProjectRow(s.op.projectId)) in s.held
    ensures s.op.Assess? ==> Shares(CampaignRow(s.op.assessed)) in s.held
  {
    match s.op
    case ChangeLease(_) => ReadyHolds(s, 1);
    case WriteProject(_) => ReadyHolds(s, 0);
    case Revise(_, _, _) =>
      ReadyHolds(s, 0);
      ReadyHolds(s, 1);
      ReadyHolds(s, 2);
    case Assess(_, _, _, _) =>
      ReadyHolds(s, 0);
      ReadyHolds(s, 1);
      ReadyHolds(s, 2);
      ReadyHolds(s, 3);
    case _ =>
  }

  lemma {:induction false} ReadyKeepApart(s: Session, t: Session)
    requires HoldsPassed(s) && HoldsPassed(t) && !s.Waiting() && !t.Waiting() && Compatible(s.held, t.held)
    ensures !Collide(s.op, t.op)
  {
    WriterHolds(s);
    WriterHolds(t);
    forall id | OwnsCampaign(s.op, id)
      ensures !OwnsCampaign(t.op, id) && !(t.op.Assess? && t.op.assessed == id)
    {
      OwnerHolds(s, id);
      assert !Clash(Takes(CampaignRow(id)), Takes(CampaignRow(id))) || Takes(CampaignRow(id)) !in t.held;
      if OwnsCampaign(t.op, id) { OwnerHolds(t, id); }
    }
    forall l | OwnsIntent(s.op, l)
      ensures !OwnsIntent(t.op, l)
    {
      TakerHolds(s, l);
      if OwnsIntent(t.op, l) { TakerHolds(t, l); }
    }
  }

  /** After any run, two sessions both ready to commit never collide. */
  lemma {:induction false} CommitsApart(versions: map<string, int>, events: seq<Event>, s: nat, t: nat)
    requires Happens(World(versions, map[]), events) && s != t
    ensures var w := AfterAll(World(versions, map[]), events);
      s in w.sessions && t in w.sessions && !w.sessions[s].Waiting() && !w.sessions[t].Waiting() ==>
        !Collide(w.sessions[s].op, w.sessions[t].op)
  {
    RunKeepsHeld(World(versions, map[]), events);
    var w := AfterAll(World(versions, map[]), events);
    assert Agree(w, s, t);
    if s in w.sessions && t in w.sessions && !w.sessions[s].Waiting() && !w.sessions[t].Waiting() {
      ReadyKeepApart(w.sessions[s], w.sessions[t]);
    }
  }
}
