/** Exactly when the store refuses a registration, an event, an approval request or an owner's decision, on any tables
    whatever (src/runtime/preventure-research-store.js and the modules beside it). */
module ResearchRefusals {
  import opened ResearchEffects
  import opened ResearchLifecycle
  import opened ResearchRuns

  predicate IsEmpty(t: Tables, a: AuthorityId) {
    a in t.log && t.log[a] == []
  }

  /** Registered, its latest event is `kind`, and the deadline has not passed. */
  predicate StandsAt(chain: Chain, t: Tables, a: AuthorityId, kind: Kind)
    requires a < |chain|
  {
    Registered(t, a) && Latest(t, a) == kind && t.now < chain[a].expiresAt
  }

  /** The event names the approval of its step, which was approved and is not used up. */
  predicate CanUse(t: Tables, key: Key, approval: ApprovalRef) {
    approval == By(key) && key in t.approvals && t.approvals[key] == Approval(Approved, false)
  }

  /** What each event needs. */
  predicate EventFits(chain: Chain, c: AuthorityId, t: Tables, a: AuthorityId, e: Event)
    requires a < |chain|
  {
    match e.kind
    case Proposed =>
      IsEmpty(t, a) && ComesNext(t, a) && t.now < chain[a].expiresAt && e.approval == NoApproval
    case Accepted =>
      a == c && ComesNext(t, a) && StandsAt(chain, t, a, Proposed) && CanUse(t, Key(a, Accepted), e.approval)
    case Activated =>
      a == c && ComesNext(t, a) && StandsAt(chain, t, a, Accepted) && CanUse(t, Key(a, Activated), e.approval)
    case Completed => StandsAt(chain, t, a, Activated) && e.approval == NoApproval
    case Expired => Overdue(chain, t, a) && e.approval == NoApproval
    case _ => OpenInTime(chain, t, a) && e.approval == NoApproval
  }

  /** An event is taken exactly if it fits. It becomes the last of its log, an approval it names is used up, and
      nothing else changes. */
  lemma EventIsTakenIffItFits(chain: Chain, c: AuthorityId, t: Tables, a: AuthorityId, e: Event)
    requires a < |chain|
    ensures var r := Append(chain, c, t, a, e);
      if EventFits(chain, c, t, a, e) then
        r == Ok(t.(log := Logged(t, a, e),
                   approvals := if e.kind in {Accepted, Activated}
                                then t.approvals[Key(a, e.kind) := Approval(Approved, true)] else t.approvals))
      else r == Threw
  {
  }

  lemma OpenKinds(k: Kind)
    ensures IsTerminal(k) <==> k !in {Proposed, Accepted, Activated}
  {
  }

  /** An authority is registered exactly in its turn, before its deadline, and while no other one is open. */
  lemma RegistrationOnRows(chain: Chain, c: AuthorityId, t: Tables, a: AuthorityId)
    requires a < |chain| && a !in t.log
    ensures var r := Register(chain, c, t, a);
      if ComesNext(t, a) && t.now < chain[a].expiresAt && (forall b :: 0 <= b < |chain| ==> !OpenInTime(chain, t, b))
      then r == Ok(t.(log := t.log[a := [Event(Proposed, NoApproval)]]))
      else r == Threw
  {
    if Competing(chain, t, a) {
      var b :| b in t.log && b != a && b < |chain| && Registered(t, b) && !IsTerminal(Effective(chain, t, b));
      OpenKinds(Latest(t, b));
      assert OpenInTime(chain, t, b);
    }
    if b :| 0 <= b < |chain| && OpenInTime(chain, t, b) {
      assert b in t.log && b != a && Registered(t, b) && !IsTerminal(Effective(chain, t, b));
    }
    var blank := t.(log := t.log[a := []]);
    assert blank.log[a] == [] && [] + [Event(Proposed, NoApproval)] == [Event(Proposed, NoApproval)];
    assert blank.log[a := [Event(Proposed, NoApproval)]] == t.log[a := [Event(Proposed, NoApproval)]];
  }

  /** An approval can be asked for exactly at its step and in time, unless it has been decided. */
  lemma RequestOnRows(chain: Chain, t: Tables, a: AuthorityId)
    requires a < |chain|
    ensures RequestApproval(chain, t, Key(a, Accepted)) ==
              if StandsAt(chain, t, a, Proposed) && CanAsk(t, Key(a, Accepted))
              then Ok(t.(approvals := Asked(t, Key(a, Accepted)))) else Threw
    ensures RequestApproval(chain, t, Key(a, Activated)) ==
              if StandsAt(chain, t, a, Accepted) && CanAsk(t, Key(a, Activated))
              then Ok(t.(approvals := Asked(t, Key(a, Activated)))) else Threw
  {
  }

  /** A pending decision is refused, either way, unless it is unused and the authority stands at its step, in time. */
  lemma LateDecisionIsRefused(chain: Chain, c: AuthorityId, t: Tables, a: AuthorityId, key: Key, approve: bool,
                              exact: bool, local: set<TemplateId>)
    requires a < |chain| && IsPending(t, key) && key.authority == a && key.kind in {Accepted, Activated}
    requires
      || t.approvals[key].consumed || !StandsAt(chain, t, a, if key.kind == Accepted then Proposed else Accepted)
    ensures Decide(chain, c, t, a, key, approve, exact, local) == Threw
  {
  }

  /** Materialisation is refused for an authority that may not dispatch, for a planned task that is there and not
      blocked, and for a stored assignment that is not planned. */
  lemma MaterialisationIsRefused(chain: Chain, c: AuthorityId, t: Tables, a: AuthorityId, id: TemplateId)
    requires a < |chain|
    requires
      || a != c || !StandsAt(chain, t, a, Activated) || a in t.frozen || a in t.held || chain[a].templates == []
      || (id in chain[a].templates && (a, id) in t.tasks && t.tasks[(a, id)].status != Blocked)
      || (a in t.assignments && id in t.assignments[a] && id !in chain[a].templates)
    ensures Materialize(chain, c, t, a) == Threw
  {
  }

  /** Start-up is refused for an active round whose assignments are there but not as many as planned. */
  lemma IncompleteRoundIsRefused(chain: Chain, c: AuthorityId, t: Tables, a: AuthorityId, local: set<TemplateId>)
    requires a < |chain| && a == c && ComesNext(t, a) && StandsAt(chain, t, a, Activated)
    requires a in t.assignments && |t.assignments[a]| !in {0, |chain[a].templates|}
    ensures StartUp(chain, c, t, a, local) == Threw
  {
  }
}
