/** The token counts the gateway reads off an upstream answer, and whether they can be charged. */
module UsageReports {
  import opened Common
  import opened Allowances
  import opened Ledger
  import opened LedgerSteps
  import opened EntryLifecycle

  // A count that is not reported is None.
  type Count = Option<int>

  /** What the request record keeps, and what settlement charges. */
  datatype Counts = Counts(input: Count, output: Count, cached: Count)

  const NO_COUNTS := Counts(None, None, None)

  datatype MessageFields = MessageFields(input: Count, output: Count, created: Count, cached: Count)

  datatype GeminiFields = GeminiFields(input: Count, output: Count, thoughts: Count, cached: Count)

  /** One answer of each protocol; None where it cannot be read, or carries no usage object. */
  datatype Answer =
    | Responses(usage: Option<Counts>)
    | Messages(usages: Option<(MessageFields, MessageFields)>)
    | Gemini(fields: Option<GeminiFields>)

  predicate InRange(n: Count) {
    n.Some? ==> 0 <= n.value <= MAX_TOKENS
  }

  function Or0(n: Count): int {
    if n.Some? then n.value else 0
  }

  function Plausible(n: Count): Count {
    if n.Some? && 0 <= n.value <= MAX_TOKENS then n else None
  }

  /** A later plausible count replaces an earlier one. */
  function Newer(prior: Count, n: Count): Count {
    if Plausible(n).Some? then n else prior
  }

  function Capped(total: int): Count {
    if total <= MAX_TOKENS then Some(total) else None
  }

  /** What a stream has reported so far, and what the record holds. */
  datatype Usage = Usage(messages: MessageFields, gemini: GeminiFields, record: Counts)

  const NO_USAGE := Usage(MessageFields(None, None, None, None), GeminiFields(None, None, None, None), NO_COUNTS)

  function NewerFields(f: MessageFields, u: MessageFields): MessageFields {
    MessageFields(Newer(f.input, u.input), Newer(f.output, u.output), Newer(f.created, u.created), Newer(f.cached, u.cached))
  }

  /** Cache reads and writes are added to the input, which excludes them. */
  function MessageCounts(f: MessageFields): Counts {
    Counts(if f.input.Some? then Capped(f.input.value + Or0(f.created) + Or0(f.cached)) else None, f.output, f.cached)
  }

  /** Thoughts are added to the output; the input already includes what was cached. */
  function GeminiCounts(f: GeminiFields): Counts {
    Counts(f.input, if f.output.Some? then Capped(f.output.value + Or0(f.thoughts)) else None, f.cached)
  }

  function AfterAnswer(u: Usage, a: Answer): Usage {
    match a
    case Responses(usage) =>
      if usage.None? then u
      else u.(record := Counts(Plausible(usage.value.input), Plausible(usage.value.output), Plausible(usage.value.cached)))
    case Messages(usages) =>
      if usages.None? then u.(record := NO_COUNTS)
      else
        var f := NewerFields(NewerFields(u.messages, usages.value.0), usages.value.1);
        u.(messages := f, record := MessageCounts(f))
    case Gemini(fields) =>
      if fields.None? then u.(record := NO_COUNTS)
      else
        var n := fields.value;
        var f := GeminiFields(Newer(u.gemini.input, n.input), Newer(u.gemini.output, n.output),
                              Newer(u.gemini.thoughts, n.thoughts), Newer(u.gemini.cached, n.cached));
        u.(gemini := f, record := GeminiCounts(f))
  }

  function AfterAnswers(u: Usage, answers: seq<Answer>): Usage
    decreases |answers|
  {
    if answers == [] then u else AfterAnswers(AfterAnswer(u, answers[0]), answers[1..])
  }

  // ---- The stream ----

  class Stream {
    var messages: MessageFields
    var gemini: GeminiFields
    var record: Counts

    constructor ()
      ensures Reported() == NO_USAGE
    {
      messages, gemini, record := MessageFields(None, None, None, None), GeminiFields(None, None, None, None), NO_COUNTS;
    }

    function Reported(): Usage
      reads this
    {
      Usage(messages, gemini, record)
    }

    method Observe(usage: Option<Counts>)
      modifies this`record
      ensures Reported() == AfterAnswer(old(Reported()), Responses(usage))
    {
      if usage.Some? {
        var c := usage.value;
        record := Counts(Plausible(c.input), Plausible(c.output), Plausible(c.cached));
      }
    }

    /** Both usage objects of an event are read, the one inside its message first. */
    method MessageUsage(usages: Option<(MessageFields, MessageFields)>)
      modifies this`messages, this`record
      ensures Reported() == AfterAnswer(old(Reported()), Messages(usages))
    {
      record := NO_COUNTS;
      if usages.None? {
        return;
      }
      var both := [usages.value.0, usages.value.1];
      for i := 0 to 2
        invariant record == NO_COUNTS && gemini == old(gemini)
        invariant messages == if i == 0 then old(messages)
                              else if i == 1 then NewerFields(old(messages), both[0])
                              else NewerFields(NewerFields(old(messages), both[0]), both[1])
      {
        ghost var f := messages;
        if Plausible(both[i].input).Some? { messages := messages.(input := both[i].input); }
        if Plausible(both[i].output).Some? { messages := messages.(output := both[i].output); }
        if Plausible(both[i].created).Some? { messages := messages.(created := both[i].created); }
        if Plausible(both[i].cached).Some? { messages := messages.(cached := both[i].cached); }
        assert messages == NewerFields(f, both[i]);
      }
      record := record.(output := messages.output, cached := messages.cached);
      if messages.input.Some? {
        var total := messages.input.value;
        if messages.created.Some? { total := total + messages.created.value; }
        if messages.cached.Some? { total := total + messages.cached.value; }
        if total <= MAX_TOKENS {
          record := record.(input := Some(total));
        }
      }
    }

    method GeminiUsage(fields: Option<GeminiFields>)
      modifies this`gemini, this`record
      ensures Reported() == AfterAnswer(old(Reported()), Gemini(fields))
    {
      record := NO_COUNTS;
      if fields.None? {
        return;
      }
      var n := fields.value;
      if Plausible(n.input).Some? { gemini := gemini.(input := n.input); }
      if Plausible(n.output).Some? { gemini := gemini.(output := n.output); }
      if Plausible(n.thoughts).Some? { gemini := gemini.(thoughts := n.thoughts); }
      if Plausible(n.cached).Some? { gemini := gemini.(cached := n.cached); }
      record := record.(input := gemini.input, cached := gemini.cached);
      if gemini.output.Some? {
        var total := gemini.output.value;
        if gemini.thoughts.Some? { total := total + gemini.thoughts.value; }
        if total <= MAX_TOKENS {
          record := record.(output := Some(total));
        }
      }
    }
  }

  // ---- What is recorded ----

  predicate Keeps(kept: Count, prior: Count, said: Count) {
    kept == if said.Some? && 0 <= said.value <= 1_000_000_000 then said else prior
  }

  /** A count outside zero to a thousand million is dropped: by a responses answer for good, by a stream's later
  event in favour of the one before. */
  lemma PlausibleCountsAreKept(u: Usage, a: Answer)
    ensures a.Responses? && a.usage.Some? ==>
      var (c, n) := (AfterAnswer(u, a).record, a.usage.value);
      Keeps(c.input, None, n.input) && Keeps(c.output, None, n.output) && Keeps(c.cached, None, n.cached)
    ensures a.Gemini? && a.fields.Some? ==>
      var (f, g, n) := (AfterAnswer(u, a).gemini, u.gemini, a.fields.value);
      && Keeps(f.input, g.input, n.input) && Keeps(f.output, g.output, n.output)
      && Keeps(f.thoughts, g.thoughts, n.thoughts) && Keeps(f.cached, g.cached, n.cached)
    ensures a.Messages? && a.usages.Some? ==>
      var (f, g, first, second) := (AfterAnswer(u, a).messages, u.messages, a.usages.value.0, a.usages.value.1);
      && KeepsLater(f.input, g.input, first.input, second.input) && KeepsLater(f.output, g.output, first.output, second.output)
      && KeepsLater(f.created, g.created, first.created, second.created) && KeepsLater(f.cached, g.cached, first.cached, second.cached)
  {
  }

  predicate KeepsLater(kept: Count, prior: Count, first: Count, second: Count) {
    if second.Some? && 0 <= second.value <= 1_000_000_000 then kept == second else Keeps(kept, prior, first)
  }

  /** The input recorded of messages is what was sent and what the cache took and gave; the output recorded of
  gemini is what was answered and thought; neither beyond a thousand million. */
  lemma TotalsAreRecorded(u: Usage, a: Answer)
    ensures a.Messages? && a.usages.Some? ==>
      var (r, f) := (AfterAnswer(u, a).record, AfterAnswer(u, a).messages);
      var total := if f.input.Some? then f.input.value + Or0(f.created) + Or0(f.cached) else 0;
      r == Counts(if f.input.Some? && total <= 1_000_000_000 then Some(total) else None, f.output, f.cached)
    ensures a.Gemini? && a.fields.Some? ==>
      var (r, f) := (AfterAnswer(u, a).record, AfterAnswer(u, a).gemini);
      var total := if f.output.Some? then f.output.value + Or0(f.thoughts) else 0;
      r == Counts(f.input, if f.output.Some? && total <= 1_000_000_000 then Some(total) else None, f.cached)
  {
  }

  // ---- What can be charged ----

  /** How a request ended, as far as its charge depends on it. */
  datatype Ending = Ending(finished: bool, usageFinal: bool, dispatched: bool, rejected: bool)

  /** An unreported count is charged as zero. */
  function CompletionOf(c: Counts, how: Ending): Completion {
    Completion(Or0(c.input), Or0(c.output), Or0(c.cached),
               c.input.Some? && c.output.Some? && (how.usageFinal || how.finished), how.dispatched, how.rejected)
  }

  /** Usage is known when both input and output were reported and the answer finished, or its usage was final. */
  lemma UsageIsKnownIff(c: Counts, how: Ending)
    ensures var done := CompletionOf(c, how);
      && (done.known <==> c.input.Some? && c.output.Some? && (how.finished || how.usageFinal))
      && done.dispatched == how.dispatched && done.rejected == how.rejected
      && (if c.input.Some? then done.input == c.input.value else done.input == 0)
      && (if c.output.Some? then done.output == c.output.value else done.output == 0)
      && (if c.cached.Some? then done.cached == c.cached.value else done.cached == 0)
  {
  }

  predicate MessagesInRange(f: MessageFields) {
    InRange(f.input) && InRange(f.output) && InRange(f.created) && InRange(f.cached)
  }

  predicate GeminiInRange(f: GeminiFields) {
    InRange(f.input) && InRange(f.output) && InRange(f.thoughts) && InRange(f.cached)
  }

  predicate FieldsInRange(u: Usage) {
    MessagesInRange(u.messages) && GeminiInRange(u.gemini)
  }

  predicate RecordInRange(c: Counts) {
    InRange(c.input) && InRange(c.output) && InRange(c.cached)
  }

  lemma MessagesAddUp(f: MessageFields, u: MessageFields)
    requires MessagesInRange(f)
    ensures MessagesInRange(NewerFields(f, u)) && RecordInRange(MessageCounts(f))
  {
  }

  lemma AnswerStaysInRange(u: Usage, a: Answer)
    requires FieldsInRange(u) && RecordInRange(u.record)
    ensures FieldsInRange(AfterAnswer(u, a)) && RecordInRange(AfterAnswer(u, a).record)
  {
    if a.Messages? && a.usages.Some? {
      hide MessagesInRange, RecordInRange, NewerFields, MessageCounts;
      MessagesAddUp(u.messages, a.usages.value.0);
      MessagesAddUp(NewerFields(u.messages, a.usages.value.0), a.usages.value.1);
      MessagesAddUp(AfterAnswer(u, a).messages, a.usages.value.1);
    }
  }

  lemma {:induction false} AnswersStayInRange(u: Usage, answers: seq<Answer>)
    requires FieldsInRange(u) && RecordInRange(u.record)
    ensures FieldsInRange(AfterAnswers(u, answers)) && RecordInRange(AfterAnswers(u, answers).record)
    decreases |answers|
  {
    hide AfterAnswer, FieldsInRange, RecordInRange;
    if answers != [] {
      AnswerStaysInRange(u, answers[0]);
      AnswersStayInRange(AfterAnswer(u, answers[0]), answers[1..]);
    }
  }

  /** Whatever was reported, and however the request ended, an admitted request settles exactly when
  the record charges no more cached tokens than input; otherwise its usage is refused. */
  lemma {:induction false} ReportedSettlesIffCachedFits(b: Book, e: Entry, answers: seq<Answer>, how: Ending, now: int)
    requires ValidBook(b) && e in b.entries && e.state.Active?
    ensures var c := AfterAnswers(NO_USAGE, answers).record;
            var f := Outcome(b, e.id, CompletionOf(c, how), now, false);
            && (f.Saved? <==> Or0(c.cached) <= Or0(c.input))
            && (f.BadUsage? <==> Or0(c.input) < Or0(c.cached))
  {
    hide AfterAnswer, Outcome;
    AnswersStayInRange(NO_USAGE, answers);
    AdmittedSettlesIffCountable(b, e, CompletionOf(AfterAnswers(NO_USAGE, answers).record, how), now);
  }

  predicate OnlyMessages(answers: seq<Answer>) {
    forall a <- answers :: a.Messages?
  }

  lemma {:induction false} MessagesFollowTheirFields(u: Usage, answers: seq<Answer>)
    requires OnlyMessages(answers)
    requires u.record == NO_COUNTS || u.record == MessageCounts(u.messages)
    ensures var end := AfterAnswers(u, answers);
            end.record == NO_COUNTS || end.record == MessageCounts(end.messages)
    decreases |answers|
  {
    if answers != [] {
      hide FieldsInRange, MessageCounts, NewerFields;
      assert answers[0] in answers;
      MessagesFollowTheirFields(AfterAnswer(u, answers[0]), answers[1..]);
    }
  }

  /** For a Messages answer, whose input total is the gateway's own sum, the only way to be refused is
  that no total was recorded: the input never came, or the sum was out of range. */
  lemma {:induction false} MessagesSettleIffInputOrNothingCached(b: Book, e: Entry, answers: seq<Answer>, how: Ending, now: int)
    requires ValidBook(b) && e in b.entries && e.state.Active? && OnlyMessages(answers)
    ensures var c := AfterAnswers(NO_USAGE, answers).record;
            Outcome(b, e.id, CompletionOf(c, how), now, false).Saved? <==> c.input.Some? || Or0(c.cached) == 0
  {
    hide AfterAnswer, Outcome;
    MessagesFollowTheirFields(NO_USAGE, answers);
    AnswersStayInRange(NO_USAGE, answers);
    ReportedSettlesIffCachedFits(b, e, answers, how, now);
  }

  /** One answer that reports what was cached but not the input is enough, in every protocol. */
  function CachedAlone(): seq<Answer> {
    [Responses(Some(Counts(None, Some(7), Some(5)))),
     Messages(Some((MessageFields(None, None, None, None), MessageFields(None, Some(7), None, Some(5))))),
     Gemini(Some(GeminiFields(None, Some(7), None, Some(5))))]
  }

  lemma {:induction false} CachedAloneIsRefused(b: Book, e: Entry, a: Answer, how: Ending, now: int)
    requires ValidBook(b) && e in b.entries && e.state.Active? && a in CachedAlone()
    ensures var c := AfterAnswers(NO_USAGE, [a]).record;
            && CompletionOf(c, how) == Completion(0, 7, 5, false, how.dispatched, how.rejected)
            && Outcome(b, e.id, CompletionOf(c, how), now, false).BadUsage?
  {
    hide Outcome;
    assert AfterAnswers(NO_USAGE, [a]) == AfterAnswer(NO_USAGE, a);
    ReportedSettlesIffCachedFits(b, e, [a], how, now);
  }
}
