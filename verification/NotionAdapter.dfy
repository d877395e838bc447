/** The Notion delivery adapter: what one attempt decides from what the remote side shows. */
module NotionAdapter {
  import opened Delivery

  datatype Page = Page(operationId: Binding, memoryId: string, payload: Payload)

  /** `Malformed` is an answer on which classification itself raises. */
  datatype Query = QueryFailed | Malformed | Pages(pages: seq<Page>)

  datatype Schema = SchemaUnavailable | SchemaInvalid | SchemaFits

  datatype Post = PostRaised | PostWithoutPageId | Posted

  /** Everything outside the queue that one attempt meets. */
  datatype Surroundings = Surroundings(adapterPresent: bool, databaseId: string, schema: Schema, payloadFits: bool,
                                       query: Query, post: Post, readback: Query)

  // ---------- Recognising the page of a job ----------

  predicate Matches(binding: Binding, page: Page) {
    page.operationId == binding || page.memoryId == binding.payload.memoryId
  }

  predicate Verified(binding: Binding, page: Page) {
    page.operationId == binding && page.memoryId == binding.payload.memoryId && page.payload == binding.payload
  }

  function Matching(binding: Binding, pages: seq<Page>): seq<Page> {
    if pages == [] then []
    else (if Matches(binding, pages[0]) then [pages[0]] else []) + Matching(binding, pages[1..])
  }

  datatype Observation = Absent | Observed(outcome: Outcome)

  function Classify(binding: Binding, pages: seq<Page>): Observation {
    var matches := Matching(binding, pages);
    if matches == [] then Absent
    else if |matches| > 1 then Observed(Outcome(Conflict, "notion_duplicate_pages"))
    else if !Verified(binding, matches[0]) then Observed(Outcome(Conflict, "notion_payload_conflict"))
    else Observed(Outcome(Succeeded, "notion_page_verified"))
  }

  method CollectMatches(binding: Binding, pages: seq<Page>) returns (matches: seq<Page>)
    ensures matches == Matching(binding, pages)
  {
    matches := [];
    for i := 0 to |pages|
      invariant matches + Matching(binding, pages[i..]) == Matching(binding, pages)
    {
      if Matches(binding, pages[i]) {
        matches := matches + [pages[i]];
      }
    }
  }

  ghost predicate OnlyMatch(binding: Binding, pages: seq<Page>, i: int) {
    0 <= i < |pages| && Matches(binding, pages[i]) && forall j | 0 <= j < |pages| && Matches(binding, pages[j]) :: j == i
  }

  lemma {:induction false} MatchingCounts(binding: Binding, pages: seq<Page>)
    ensures Matching(binding, pages) == [] <==> forall j | 0 <= j < |pages| :: !Matches(binding, pages[j])
    ensures |Matching(binding, pages)| == 1 ==> exists i :: OnlyMatch(binding, pages, i) && Matching(binding, pages) == [pages[i]]
    ensures forall i | OnlyMatch(binding, pages, i) :: Matching(binding, pages) == [pages[i]]
  {
    if pages == [] {
    } else {
      MatchingCounts(binding, pages[1..]);
      var rest := Matching(binding, pages[1..]);
      if Matches(binding, pages[0]) {
        assert rest == [] ==> OnlyMatch(binding, pages, 0);
        forall i | OnlyMatch(binding, pages, i) ensures Matching(binding, pages) == [pages[i]] {
          assert i == 0;
          assert forall j | 0 <= j < |pages[1..]| :: pages[1..][j] == pages[j + 1];
        }
      } else {
        if |rest| == 1 {
          var i :| OnlyMatch(binding, pages[1..], i) && rest == [pages[1..][i]];
          forall j | 0 <= j < |pages| && Matches(binding, pages[j]) ensures j == i + 1 {
            assert pages[1..][j - 1] == pages[j];
          }
          assert OnlyMatch(binding, pages, i + 1);
        }
        forall i | OnlyMatch(binding, pages, i) ensures Matching(binding, pages) == [pages[i]] {
          forall j | 0 <= j < |pages[1..]| && Matches(binding, pages[1..][j]) ensures j == i - 1 {
            assert pages[j + 1] == pages[1..][j];
          }
          assert OnlyMatch(binding, pages[1..], i - 1);
        }
      }
    }
  }

  /** Success is reported for a page only when it is the one page carrying either identity of the job,
      and it carries both with the job's payload; absence only when no page carries either. */
  lemma ClassifiedExactly(binding: Binding, pages: seq<Page>)
    ensures Classify(binding, pages).Absent? <==> forall j | 0 <= j < |pages| :: !Matches(binding, pages[j])
    ensures (Classify(binding, pages).Observed? && Classify(binding, pages).outcome.state == Succeeded)
            <==> exists i :: OnlyMatch(binding, pages, i) && Verified(binding, pages[i])
  {
    MatchingCounts(binding, pages);
  }

  // ---------- One delivery ----------

  /** `Raised` before the mutation is announced; `Announce` means the adapter goes on to announce it and post. */
  datatype Verdict = Decided(outcome: Outcome) | Raised | Announce

  /** A job that names a database is only for that database. */
  predicate OtherDatabase(id: Identity, seen: Surroundings) {
    id.databaseId != "" && id.databaseId != seen.databaseId
  }

  function BeforeMutation(id: Identity, queryOnly: bool, seen: Surroundings): Verdict {
    if !seen.adapterPresent then Decided(Outcome(RetryableFailed, "delivery_adapter_missing"))
    else if OtherDatabase(id, seen) then
      Decided(Outcome(RetryableFailed, "notion_database_configuration_mismatch"))
    else if id.policy.PolicyRequired? && seen.schema.SchemaUnavailable? then
      Decided(Outcome(RetryableFailed, "notion_schema_preflight_unavailable"))
    else if id.policy.PolicyRequired? && seen.schema.SchemaInvalid? then
      Decided(Outcome(PermanentFailed, "notion_schema_invalid"))
    else if !seen.payloadFits then Decided(Outcome(PermanentFailed, "notion_payload_invalid"))
    else
      match seen.query
      case QueryFailed => Decided(Outcome(if queryOnly then Uncertain else RetryableFailed, "notion_query_failed"))
      case Malformed => Raised
      case Pages(pages) =>
        match Classify(id.binding, pages)
        case Observed(outcome) => Decided(outcome)
        case Absent =>
          if queryOnly then Decided(Outcome(Uncertain, ABSENT_CODE)) else Announce
  }

  const ABSENT_CODE := "notion_absent_during_uncertain_reconcile"

  /** What the attempt records when the adapter raised before the mutation was announced, or failed to announce it. */
  const RAISED_BEFORE := Outcome(RetryableFailed, "adapter_exception")

  function BeforeOutcome(verdict: Verdict): Outcome
    requires !verdict.Announce?
  {
    if verdict.Decided? then verdict.outcome else RAISED_BEFORE
  }

  function AfterMutation(id: Identity, seen: Surroundings): Outcome {
    match seen.post
    case PostRaised => Outcome(Uncertain, "notion_post_uncertain")
    case PostWithoutPageId => Outcome(Uncertain, "notion_post_missing_page_id")
    case Posted =>
      match seen.readback
      case QueryFailed => Outcome(Uncertain, "notion_readback_failed")
      case Malformed => Outcome(Uncertain, "adapter_exception_after_remote_mutation")
      case Pages(pages) =>
        match Classify(id.binding, pages)
        case Absent => Outcome(Uncertain, "notion_readback_missing")
        case Observed(outcome) => outcome
  }

  /** Once the mutation is announced nothing the remote side shows makes the job postable again. */
  predicate SafeAfterMutation(state: State) {
    state.Uncertain? || state.Succeeded? || state.Conflict?
  }

  lemma AfterMutationIsSafe(id: Identity, seen: Surroundings)
    ensures SafeAfterMutation(AfterMutation(id, seen).state)
    ensures AfterMutation(id, seen).state == Succeeded ==>
              && seen.post.Posted? && seen.readback.Pages?
              && exists i :: OnlyMatch(id.binding, seen.readback.pages, i) && Verified(id.binding, seen.readback.pages[i])
  {
    if seen.readback.Pages? {
      ClassifiedExactly(id.binding, seen.readback.pages);
    }
  }

  /** A mutation is announced exactly by an attempt that may post, from a fitting set-up, after a completed query
      in which no page carries either identity of the job. */
  lemma AnnouncesExactly(id: Identity, queryOnly: bool, seen: Surroundings)
    ensures BeforeMutation(id, queryOnly, seen).Announce? <==>
              && !queryOnly && seen.adapterPresent && !OtherDatabase(id, seen)
              && (id.policy.PolicyRequired? ==> seen.schema.SchemaFits?) && seen.payloadFits
              && seen.query.Pages? && forall j | 0 <= j < |seen.query.pages| :: !Matches(id.binding, seen.query.pages[j])
  {
    if seen.query.Pages? {
      ClassifiedExactly(id.binding, seen.query.pages);
    }
  }

  /** The adapter set-ups and query answers that turn a query-only attempt into a retryable failure. */
  predicate Misconfigured(id: Identity, seen: Surroundings) {
    || !seen.adapterPresent
    || OtherDatabase(id, seen)
    || (id.policy.PolicyRequired? && seen.schema.SchemaUnavailable?)
    || (!(id.policy.PolicyRequired? && seen.schema.SchemaInvalid?) && seen.payloadFits && seen.query.Malformed?)
  }

  /** A query-only delivery never announces a mutation, and it ends retryable exactly when misconfigured. */
  lemma QueryOnlyEndsRetryableExactly(id: Identity, seen: Surroundings)
    ensures !BeforeMutation(id, true, seen).Announce?
    ensures BeforeOutcome(BeforeMutation(id, true, seen)).state == RetryableFailed <==> Misconfigured(id, seen)
    ensures BeforeOutcome(BeforeMutation(id, true, seen)).code == ABSENT_CODE ==>
              seen.query.Pages? && forall j | 0 <= j < |seen.query.pages| :: !Matches(id.binding, seen.query.pages[j])
  {
    if seen.query.Pages? {
      ClassifiedExactly(id.binding, seen.query.pages);
    }
  }
}
