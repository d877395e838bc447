/** What separates two posts of one job: when a confirmed absence can be relied on, and when not. */
module DeliveryConfirmations {
  import opened Delivery
  import opened DeliveryRuns
  import opened DeliverySafety
  import opened DeliveryEvidence
  import opened DeliveryTraces

  // ---------- What a confirmation rests on ----------

  /** Before `k`: a quarantine was over, then the attempt behind the confirmation was claimed query-only, and then it
      ended with a completed query without a match. */
  ghost predicate RestsOn(h: seq<Entry>, q: nat, c: nat, e: nat, k: nat) {
    && q < c < e < k < |h| && h[k].ConfirmedAbsent?
    && h[q].QuarantineOver? && h[q].due <= h[q].at
    && h[c] == Claimed(h[k].evidence, true) && h[e] == Ended(h[k].evidence, true, Uncertain, true)
  }

  lemma ConfirmationIsGrounded(h: seq<Entry>, k: nat)
    requires Orderly(h) && k < |h| && h[k].ConfirmedAbsent?
    ensures exists q, c, e :: RestsOn(h, q, c, e, k)
  {
    var n := h[k].evidence;
    PrefixOrderly(h, k);
    var q, c :| 0 <= q < c < |h[..k]| && h[..k][q].QuarantineOver? && h[..k][c] == Claimed(n, true);
    var e :| 0 <= e < |h[..k]| && h[..k][e] == Ended(n, true, Uncertain, true);
    PrefixOrderly(h, q);
    PrefixOrderly(h, e);
    assert Claimed(n, true) in h[..e];
    var c' :| 0 <= c' < |h[..e]| && h[..e][c'] == Claimed(n, true);
    if c' != c {
      AttemptsNeverRepeat(h, if c < c' then c else c', if c < c' then c' else c);
    }
    assert RestsOn(h, q, c, e, k);
  }

  /** In every run each confirmed absence rests on a query-only attempt, claimed after the quarantine was over, that
      ended with a completed query without a match. */
  lemma EveryConfirmationIsGrounded(s: Setting, identity: Identity, now: int, events: seq<Event>, k: nat)
    requires ValidIdentity(identity) && identity.binding.targetType.TargetNotion?
    requires k < |Run(s, Initial(identity, now), events).history|
    requires Run(s, Initial(identity, now), events).history[k].ConfirmedAbsent?
    ensures exists q, c, e :: RestsOn(Run(s, Initial(identity, now), events).history, q, c, e, k)
  {
    EveryRunIsSafe(s, identity, now, events);
    ConfirmationIsGrounded(Run(s, Initial(identity, now), events).history, k);
  }

  // ---------- When its evidence is out of date ----------

  /** The evidence has not been overtaken exactly when its attempt is still the job's last one. */
  lemma EvidenceIsLastExactly(w: World, n: nat)
    requires Safe(w) && w.job.state.Uncertain? && Grounded(w.history, n)
    ensures (forall x | x in w.history && x.Claimed? :: x.number <= n) <==> w.job.last.value.attempt.number == n
  {
    var last := w.job.last.value.attempt;
    var claimed := Claimed(last.number, w.receipts[last].queryOnly);
    assert claimed in w.history && claimed.number == last.number;
    assert NumberOf(Ended(n, true, Uncertain, true)) == n;
  }

  /** An attempt that was allowed to post ended without anyone knowing whether it did. */
  predicate LeftUncertain(e: Entry) {
    e.Ended? && !e.queryOnly && e.state.Uncertain?
  }

  /** What comes after the end of a query-only attempt and tells of a mutation belongs to a later attempt. */
  lemma LaterAttempt(h: seq<Entry>, e: nat, j: nat)
    requires Orderly(h) && e < j < |h| && h[e].Ended? && h[e].queryOnly && (h[j].Announced? || LeftUncertain(h[j]))
    ensures h[j].number > h[e].number
  {
    EntryFits(h, j);
    EntryFits(h, e);
    assert NumberOf(h[e]) <= h[j].number;
    if h[j].Announced? && h[j].number == h[e].number {
      var i :| 0 <= i < |h[..e]| && h[..e][i] == Claimed(h[e].number, true);
      assert h[i] == Claimed(h[e].number, true);
      QueryOnlyNeverAnnounces(h, h[e].number);
      assert false;
    }
  }

  /** What an attempt with a number above `h[e]`'s has in the history comes after `e`. */
  lemma ComesAfter(h: seq<Entry>, e: nat, x: Entry) returns (j: nat)
    requires Orderly(h) && e < |h| && h[e].Ended? && x in h && NumberOf(x) > h[e].number
    ensures e < j < |h| && h[j] == x
  {
    j :| 0 <= j < |h| && h[j] == x;
    EntryFits(h, e);
    assert forall i | 0 <= i < e :: NumberOf(h[i]) <= h[e].number;
  }

  /** For a job that could be confirmed absent now, the query that ended at `e` is newer than every announcement
      exactly when no attempt that ended since was left uncertain. */
  lemma EvidenceIsNewerExactly(w: World, e: nat)
    requires Safe(w) && w.job.state.Uncertain? && e < |w.history| && w.history[e].Ended? && w.history[e].queryOnly
    ensures (forall j | e < j < |w.history| :: !w.history[j].Announced?)
       <==> (forall j | e < j < |w.history| :: !LeftUncertain(w.history[j]))
  {
    var h := w.history;
    forall j | e < j < |h| && h[j].Announced? ensures exists l :: e < l < |h| && LeftUncertain(h[l]) {
      LaterAttempt(h, e, j);
      assert h[j] in h;
      var l := ComesAfter(h, e, Ended(h[j].number, false, Uncertain, false));
    }
    forall j | e < j < |h| && LeftUncertain(h[j]) ensures exists l :: e < l < |h| && h[l].Announced? {
      LaterAttempt(h, e, j);
      assert h[j] in h;
      var l := ComesAfter(h, e, Announced(h[j].number));
    }
  }

  // ---------- What would make the promise true ----------

  lemma StickyStep(s: Setting, w: World, e: Event)
    requires !s.variant.AsWritten? && Safe(w)
    requires forall x | x in w.history :: !QuietlyReleased(x)
    ensures forall x | x in Next(s, w, e).history :: !QuietlyReleased(x)
  {
    if e.Work? && e.id in w.workers && HasClaim(w.workers[e.id].pc) {
      assert ClaimOk(w, w.workers[e.id].pc) && PcOk(w, w.workers[e.id].pc);
    }
  }

  lemma {:induction false} StickyRun(s: Setting, w: World, events: seq<Event>)
    requires !s.variant.AsWritten? && Safe(w)
    requires forall x | x in w.history :: !QuietlyReleased(x)
    ensures forall x | x in Run(s, w, events).history :: !QuietlyReleased(x)
    decreases |events|
  {
    if events == [] {
    } else {
      NextTells(s, w, events[0]);
      StickyStep(s, w, events[0]);
      StickyRun(s, Next(s, w, events[0]), events[1..]);
    }
  }

  /** Two announcements, or two posts made under their own leases. */
  predicate BothMark(a: Entry, b: Entry) {
    (a.Announced? && b.Announced?) || (HeldPost(a) && HeldPost(b))
  }

  /** When query-only attempts go back to uncertain, two announcements, or two posts made under their own leases, enclose
      a confirmed absence, and that one rests on a query made after a quarantine. */
  lemma StickyNeedsConfirmation(s: Setting, identity: Identity, now: int, events: seq<Event>, i: nat, j: nat)
    requires !s.variant.AsWritten? && ValidIdentity(identity) && identity.binding.targetType.TargetNotion?
    requires i < j < |Run(s, Initial(identity, now), events).history|
    requires var h := Run(s, Initial(identity, now), events).history; BothMark(h[i], h[j])
    ensures exists k, q, c, e :: i < k < j && RestsOn(Run(s, Initial(identity, now), events).history, q, c, e, k)
  {
    EveryRunIsSafe(s, identity, now, events);
    StickyRun(s, Initial(identity, now), events);
    var h := Run(s, Initial(identity, now), events).history;
    if h[i].Announced? {
      BetweenAnnouncements(h, i, j);
    } else {
      BetweenHeldPosts(h, i, j);
    }
    var k :| i < k < j && Releases(h[k]);
    assert h[k] in h;
    ConfirmationIsGrounded(h, k);
  }

  /** Nothing of a later attempt comes before a confirmed absence. */
  predicate UpToDate(h: seq<Entry>) {
    forall i, k | 0 <= i < k < |h| && h[k].ConfirmedAbsent? :: NumberOf(h[i]) <= h[k].evidence
  }

  lemma OnlyConfirmersConfirm(s: Setting, w: World, e: Event)
    requires !(e.Work? && e.id in w.workers && w.workers[e.id].pc.ToConfirm?)
    ensures w.history <= Next(s, w, e).history
    ensures forall k | |w.history| <= k < |Next(s, w, e).history| :: !Next(s, w, e).history[k].ConfirmedAbsent?
  {
  }

  lemma RecheckedStep(s: Setting, w: World, e: Event)
    requires s.variant.StickyRechecked? && Safe(w) && UpToDate(w.history)
    ensures UpToDate(Next(s, w, e).history)
  {
    if e.Work? && e.id in w.workers && w.workers[e.id].pc.ToConfirm? {
      var evidence := w.workers[e.id].pc.evidence;
      assert StillConfirmable(s, w.job, evidence) ==> Latest(w.history, evidence);
    } else {
      OnlyConfirmersConfirm(s, w, e);
    }
  }

  lemma {:induction false} RecheckedRun(s: Setting, w: World, events: seq<Event>)
    requires s.variant.StickyRechecked? && Safe(w) && UpToDate(w.history)
    ensures UpToDate(Run(s, w, events).history)
    decreases |events|
  {
    if events == [] {
    } else {
      NextTells(s, w, events[0]);
      RecheckedStep(s, w, events[0]);
      RecheckedRun(s, Next(s, w, events[0]), events[1..]);
    }
  }

  /** The query behind a confirmation that was up to date was made after every earlier announcement and held post. */
  lemma QueriedSince(h: seq<Entry>, i: nat, q: nat, c: nat, e: nat, k: nat)
    requires Orderly(h) && UpToDate(h) && i < k && RestsOn(h, q, c, e, k) && (h[i].Announced? || HeldPost(h[i]))
    ensures i < c
  {
    var n := h[k].evidence;
    assert NumberOf(h[i]) <= n;
    assert h[c] in h;
    QueryOnlyNeverAnnounces(h, n);
    if h[i].Posting? {
      var ia := AnnouncementOf(h, i);
      assert h[ia] in h;
    } else {
      assert h[i] in h;
    }
    assert NumberOf(h[c]) == n;
    EntryFits(h, i);
    assert forall l | 0 <= l < i :: NumberOf(h[l]) <= h[i].number;
  }

  /** With both changes, between two announcements, and between two posts made under their own leases, the remote side
      was queried afresh, the query found nothing, and the absence was confirmed by it. */
  lemma RecheckedKeepsThePromise(s: Setting, identity: Identity, now: int, events: seq<Event>, i: nat, j: nat)
    requires s.variant.StickyRechecked? && ValidIdentity(identity) && identity.binding.targetType.TargetNotion?
    requires i < j < |Run(s, Initial(identity, now), events).history|
    requires var h := Run(s, Initial(identity, now), events).history; BothMark(h[i], h[j])
    ensures exists q: nat, c: nat, e: nat, k: nat ::
              i < c && k < j && RestsOn(Run(s, Initial(identity, now), events).history, q, c, e, k)
  {
    StickyNeedsConfirmation(s, identity, now, events, i, j);
    EveryRunIsSafe(s, identity, now, events);
    RecheckedRun(s, Initial(identity, now), events);
    var h := Run(s, Initial(identity, now), events).history;
    var k, q, c, e :| i < k < j && RestsOn(h, q, c, e, k);
    QueriedSince(h, i, q, c, e, k);
  }
}
