/** What the histories of the delivery protocol mean for the remote side. */
module DeliveryTraces {
  import opened Common
  import opened Delivery
  import opened NotionAdapter
  import opened DeliveryRuns
  import opened DeliverySafety
  import opened DeliveryEvidence

  // ---------- Reading an orderly history ----------

  lemma {:induction false} ExposedUnlessReleased(h: seq<Entry>, i: nat)
    requires i < |h| && h[i].Announced?
    requires forall k | i < k < |h| :: !Releases(h[k])
    ensures Exposed(h)
    decreases |h|
  {
    if i == |h| - 1 {
    } else {
      ExposedUnlessReleased(h[..|h| - 1], i);
    }
  }

  /** Between two announcements the job was released: its absence was confirmed, or a query-only attempt
      ended in a retryable failure. */
  lemma BetweenAnnouncements(h: seq<Entry>, i: nat, j: nat)
    requires Orderly(h) && i < j < |h| && h[i].Announced? && h[j].Announced?
    ensures exists k :: i < k < j && Releases(h[k])
  {
    PrefixOrderly(h, j);
    if forall k | i < k < j :: !Releases(h[k]) {
      assert forall k | i < k < |h[..j]| :: !Releases(h[..j][k]);
      ExposedUnlessReleased(h[..j], i);
      assert false;
    }
  }

  lemma EveryPostAnnounced(h: seq<Entry>, j: nat)
    requires Orderly(h) && j < |h| && h[j].Posting?
    ensures exists i :: 0 <= i < j && h[i] == Announced(h[j].number)
    ensures forall k | 0 <= k < |h| && k != j && h[k].Posting? :: h[k].number != h[j].number
  {
    PrefixOrderly(h, j);
    assert Announced(h[j].number) in h[..j];
    var i :| 0 <= i < |h[..j]| && h[..j][i] == Announced(h[j].number);
    assert h[i] == Announced(h[j].number);
    forall k | 0 <= k < |h| && k != j && h[k].Posting? ensures h[k].number != h[j].number {
      var low, high := if k < j then k else j, if k < j then j else k;
      PrefixOrderly(h, high);
      assert h[low] == h[..high][low];
    }
  }

  lemma EntryFits(h: seq<Entry>, j: nat)
    requires Orderly(h) && j < |h|
    ensures Fits(h[..j], h[j]) && forall i | 0 <= i < j :: h[i] in h[..j]
  {
    PrefixOrderly(h, j);
    assert forall i | 0 <= i < j :: h[..j][i] == h[i];
  }

  /** A post by an attempt that still had its lease. */
  predicate HeldPost(e: Entry) {
    e.Posting? && e.held
  }

  lemma AnnouncementOf(h: seq<Entry>, j: nat) returns (i: nat)
    requires Orderly(h) && j < |h| && h[j].Posting?
    ensures i < j && h[i] == Announced(h[j].number)
  {
    EveryPostAnnounced(h, j);
    i :| 0 <= i < j && h[i] == Announced(h[j].number);
  }

  /** The second of two held posts was announced after the first was made. */
  lemma AnnouncedAfterPost(h: seq<Entry>, i: nat, j: nat) returns (ib: nat)
    requires Orderly(h) && i < j < |h| && HeldPost(h[i]) && HeldPost(h[j])
    ensures i < ib < j && h[ib] == Announced(h[j].number) && h[i].number < h[j].number
  {
    ib := AnnouncementOf(h, j);
    EveryPostAnnounced(h, j);
    EntryFits(h, i);
    EntryFits(h, j);
    assert NumberOf(h[i]) <= h[j].number;
    assert forall l | 0 <= l < i :: NumberOf(h[l]) <= h[i].number;
  }

  /** Nothing releases the job between an announcement and its own held post. */
  lemma NoReleaseBeforePost(h: seq<Entry>, ia: nat, k: nat, i: nat)
    requires Orderly(h) && ia < k < i < |h| && HeldPost(h[i]) && h[ia] == Announced(h[i].number)
    ensures !Releases(h[k])
  {
    EntryFits(h, i);
    EntryFits(h, k);
    assert forall l | 0 <= l < i :: NumberOf(h[l]) <= h[i].number;
    forall x | x in h[..k] ensures x in h[..i] {
      var l :| 0 <= l < |h[..k]| && h[..k][l] == x;
      assert h[l] == x;
    }
  }

  /** Two held posts enclose a release, even one before the second is announced. */
  lemma BetweenHeldPosts(h: seq<Entry>, i: nat, j: nat)
    requires Orderly(h) && i < j < |h| && HeldPost(h[i]) && HeldPost(h[j])
    ensures exists k :: i < k < j && Releases(h[k])
  {
    var ia := AnnouncementOf(h, i);
    var ib := AnnouncedAfterPost(h, i, j);
    BetweenAnnouncements(h, ia, ib);
    var k :| ia < k < ib && Releases(h[k]);
    if k < i {
      NoReleaseBeforePost(h, ia, k, i);
    }
  }

  lemma EachAttemptEndsOnce(h: seq<Entry>, i: nat, j: nat)
    requires Orderly(h) && i < j < |h| && h[i].Ended? && h[j].Ended?
    ensures h[i].number != h[j].number
  {
    PrefixOrderly(h, j);
    assert h[i] == h[..j][i];
  }

  lemma QueryOnlyNeverAnnounces(h: seq<Entry>, n: nat)
    requires Orderly(h) && Claimed(n, true) in h
    ensures Announced(n) !in h
  {
    if Announced(n) in h {
      var j :| 0 <= j < |h| && h[j] == Announced(n);
      PrefixOrderly(h, j);
      var i :| 0 <= i < |h[..j]| && h[..j][i] == Claimed(n, false);
      var k :| 0 <= k < |h| && h[k] == Claimed(n, true);
      assert h[i] == Claimed(n, false);
      AttemptsNeverRepeat(h, if i < k then i else k, if i < k then k else i);
      assert false;
    }
  }

  // ---------- Counting posts ----------

  function Announcements(h: seq<Entry>): nat {
    if h == [] then 0 else Announcements(h[..|h| - 1]) + if h[|h| - 1].Announced? then 1 else 0
  }

  function Posts(h: seq<Entry>): nat {
    if h == [] then 0 else Posts(h[..|h| - 1]) + if h[|h| - 1].Posting? then 1 else 0
  }

  function ReleaseCount(h: seq<Entry>): nat {
    if h == [] then 0 else ReleaseCount(h[..|h| - 1]) + if Releases(h[|h| - 1]) then 1 else 0
  }

  lemma {:induction false} AnnouncementsBounded(h: seq<Entry>)
    requires Orderly(h)
    ensures Announcements(h) <= ReleaseCount(h) + if Exposed(h) then 1 else 0
    decreases |h|
  {
    if h == [] {
    } else {
      AnnouncementsBounded(h[..|h| - 1]);
    }
  }

  function PostedAttempts(h: seq<Entry>): set<nat> {
    set e | e in h && e.Posting? :: e.number
  }

  function AnnouncedAttempts(h: seq<Entry>): set<nat> {
    set e | e in h && e.Announced? :: e.number
  }

  lemma AttemptsSnoc(p: seq<Entry>, e: Entry)
    ensures PostedAttempts(p + [e]) == PostedAttempts(p) + if e.Posting? then {e.number} else {}
    ensures AnnouncedAttempts(p + [e]) == AnnouncedAttempts(p) + if e.Announced? then {e.number} else {}
  {
    assert forall x :: x in p + [e] <==> x in p || x == e;
  }

  lemma {:induction false} CountsAreSizes(h: seq<Entry>)
    requires Orderly(h)
    ensures |PostedAttempts(h)| == Posts(h) && |AnnouncedAttempts(h)| == Announcements(h)
    ensures PostedAttempts(h) <= AnnouncedAttempts(h)
    decreases |h|
  {
    if h == [] {
    } else {
      var p, e := h[..|h| - 1], h[|h| - 1];
      CountsAreSizes(p);
      assert h == p + [e];
      AttemptsSnoc(p, e);
      assert e.Posting? ==> e.number !in PostedAttempts(p);
      assert e.Announced? ==> e.number !in AnnouncedAttempts(p);
    }
  }

  /** In every run, posts are at most one more than the releases. */
  lemma PostsBounded(s: Setting, identity: Identity, now: int, events: seq<Event>)
    requires ValidIdentity(identity) && identity.binding.targetType.TargetNotion?
    ensures var h := Run(s, Initial(identity, now), events).history; Posts(h) <= ReleaseCount(h) + 1
  {
    EveryRunIsSafe(s, identity, now, events);
    var h := Run(s, Initial(identity, now), events).history;
    AnnouncementsBounded(h);
    CountsAreSizes(h);
    SubsetSize(PostedAttempts(h), AnnouncedAttempts(h));
  }

  /** In every run, whatever the workers, the clock and the crashes: two announcements enclose a release, and so do two
      posts made under their own leases, a post has its own earlier announcement and is made once, and query-only attempts
      never announce. */
  lemma EveryRunHistory(s: Setting, identity: Identity, now: int, events: seq<Event>, i: nat, j: nat)
    requires ValidIdentity(identity) && identity.binding.targetType.TargetNotion?
    requires i < j < |Run(s, Initial(identity, now), events).history|
    ensures var h := Run(s, Initial(identity, now), events).history;
            && (h[i].Announced? && h[j].Announced? ==> exists k :: i < k < j && Releases(h[k]))
            && (HeldPost(h[i]) && HeldPost(h[j]) ==> exists k :: i < k < j && Releases(h[k]))
            && (h[j].Posting? ==> exists k :: 0 <= k < j && h[k] == Announced(h[j].number))
            && (h[i].Posting? && h[j].Posting? ==> h[i].number != h[j].number)
            && (h[i].Claimed? && h[j].Claimed? ==> h[i].number < h[j].number)
            && (h[i].Claimed? && h[i].queryOnly ==> h[j] != Announced(h[i].number))
            && (h[i].Ended? && h[j].Ended? ==> h[i].number != h[j].number)
  {
    EveryRunIsSafe(s, identity, now, events);
    var h := Run(s, Initial(identity, now), events).history;
    if h[i].Announced? && h[j].Announced? { BetweenAnnouncements(h, i, j); }
    if HeldPost(h[i]) && HeldPost(h[j]) { BetweenHeldPosts(h, i, j); }
    if h[j].Posting? { EveryPostAnnounced(h, j); }
    if h[i].Claimed? && h[j].Claimed? { AttemptsNeverRepeat(h, i, j); }
    if h[i].Claimed? && h[i].queryOnly { QueryOnlyNeverAnnounces(h, h[i].number); }
    if h[i].Ended? && h[j].Ended? { EachAttemptEndsOnce(h, i, j); }
  }

  // ---------- The quarantine clock ----------

  /** An uncertain job says since when. */
  predicate Dated(job: Job) {
    job.state.Uncertain? ==> job.uncertainSince.Some?
  }

  lemma StepKeepsDate(s: Setting, w: World, e: Event)
    requires Dated(w.job)
    ensures Dated(Next(s, w, e).job)
    ensures w.job.uncertainSince.Some? ==>
              Next(s, w, e).job.uncertainSince == w.job.uncertainSince || Next(s, w, e).job.state.Succeeded?
    ensures w.job.uncertainSince.None? && Next(s, w, e).job.uncertainSince.Some? ==>
              Next(s, w, e).job.uncertainSince == Some(w.now)
  {
  }

  /** Once uncertain, a job keeps the moment it first became so, through every retry, query, confirmation and post,
      until it succeeds: nothing restarts the quarantine. */
  lemma {:induction false} QuarantineNeverRestarts(s: Setting, w: World, events: seq<Event>)
    requires Dated(w.job) && w.job.uncertainSince.Some?
    ensures Dated(Run(s, w, events).job)
    ensures Run(s, w, events).job.uncertainSince == w.job.uncertainSince
            || exists n :: 0 <= n <= |events| && Run(s, w, events[..n]).job.state.Succeeded?
    decreases |events|
  {
    if events == [] {
    } else {
      var next := Next(s, w, events[0]);
      StepKeepsDate(s, w, events[0]);
      if next.job.state.Succeeded? {
        assert events[..1] == [events[0]];
        assert Run(s, w, [events[0]]) == Run(s, next, []);
        DatedRun(s, next, events[1..]);
      } else {
        QuarantineNeverRestarts(s, next, events[1..]);
        if n :| 0 <= n <= |events[1..]| && Run(s, next, events[1..][..n]).job.state.Succeeded? {
          assert events[..n + 1] == [events[0]] + events[1..][..n];
          assert Run(s, w, events[..n + 1]) == Run(s, next, events[1..][..n]);
        }
      }
    }
  }

  lemma {:induction false} IdentityKept(s: Setting, w: World, events: seq<Event>)
    ensures Run(s, w, events).job.identity == w.job.identity
    decreases |events|
  {
    if events == [] {
    } else {
      IdentityKept(s, Next(s, w, events[0]), events[1..]);
    }
  }

  /** So the quarantine of every later post counts from the first uncertainty: as long as the job never succeeded,
      it is over exactly when the quarantine of the first one is, however recent the last post may be. */
  lemma QuarantineCountsFromFirst(s: Setting, w: World, events: seq<Event>)
    requires w.job.state.Uncertain? && w.job.uncertainSince.Some?
    requires forall n | 0 <= n <= |events| :: !Run(s, w, events[..n]).job.state.Succeeded?
    requires Run(s, w, events).job.state.Uncertain?
    ensures var w' := Run(s, w, events);
            QuarantineElapsed(w'.job, w'.now)
            <==> w'.now >= w.job.uncertainSince.value + w.job.identity.quarantineSeconds
  {
    QuarantineNeverRestarts(s, w, events);
    IdentityKept(s, w, events);
  }

  lemma {:induction false} DatedRun(s: Setting, w: World, events: seq<Event>)
    requires Dated(w.job)
    ensures Dated(Run(s, w, events).job)
    decreases |events|
  {
    if events == [] {
    } else {
      StepKeepsDate(s, w, events[0]);
      DatedRun(s, Next(s, w, events[0]), events[1..]);
    }
  }

  // ---------- What no worker can do ----------

  /** A finished job stays as it is, unless a clashing enqueue turns it into a conflict. */
  lemma {:induction false} TerminalForGood(s: Setting, w: World, events: seq<Event>)
    requires Terminal(w.job.state)
    ensures Run(s, w, events).job == w.job || Run(s, w, events).job.state == Conflict
    decreases |events|
  {
    if events == [] {
    } else {
      var next := Next(s, w, events[0]);
      assert next.job == w.job || next.job.state == Conflict;
      TerminalForGood(s, next, events[1..]);
    }
  }

  /** A worker about to post has lost its lease exactly when its attempt has ended meanwhile, or the job is finished. */
  lemma PostIsLateExactly(s: Setting, w: World, id: nat, seen: Surroundings)
    requires Safe(w) && id in w.workers && w.workers[id].pc.ToPost?
    ensures var claim := w.workers[id].pc.claim; var n := claim.attempt.number;
            && Next(s, w, Work(id, seen)).history == w.history + [Posting(n, LeasedTo(w.job, claim.attempt))]
            && (!LeasedTo(w.job, claim.attempt) <==> HasEnded(w.history, n) || Terminal(w.job.state))
  {
    var pc := w.workers[id].pc;
    assert ClaimOk(w, pc) && PcOk(w, pc);
    assert Announced(pc.claim.attempt.number) in w.history;
  }

  /** A worker whose claim is no longer the lease on record never changes the job again. */
  lemma LostLeaseIsHarmless(s: Setting, w: World, id: nat, seen: Surroundings)
    requires Safe(w) && id in w.workers && HasClaim(w.workers[id].pc)
    requires w.job.lease.Some? ==> w.job.lease.value.attempt != w.workers[id].pc.claim.attempt
    ensures Next(s, w, Work(id, seen)).job == w.job
  {
    assert PcOk(w, w.workers[id].pc);
  }

  /** While a lease is live and its attempt has left no receipt, no step of another worker changes the job. */
  lemma LiveLeaseHolds(s: Setting, w: World, id: nat, seen: Surroundings)
    requires Safe(w) && id in w.workers && w.job.lease.Some?
    requires w.job.lease.value.expiresAt > w.now && w.job.lease.value.attempt !in w.receipts
    requires HasClaim(w.workers[id].pc) ==> w.workers[id].pc.claim.attempt != w.job.lease.value.attempt
    ensures Next(s, w, Work(id, seen)).job == w.job
  {
    if HasClaim(w.workers[id].pc) {
      LostLeaseIsHarmless(s, w, id, seen);
    }
  }
}
