/** Evidence ledgers in use: what every sequence of operations keeps, and where it could break. */
module EvidenceRuns {
  import opened Wrappers
  import opened Strings
  import opened Evidence
  import opened EvidenceSnapshots

  datatype Op =
    | DoRegister(text: string, tool: string, args: string, lifecycle: string)
    | DoRegisterGap(slot: string, text: string, howToCheck: string)
    | DoSetLifecycle(id: QuestionId, lifecycle: string)
    | DoRecord(id: QuestionId, observation: Observation)
    | DoResolve(id: QuestionId, claim: Claim)
    | DoEnsureTerminal
    | DoIngest(snapshot: Snapshot)

  function Apply(l: State, op: Op): State {
    match op
    case DoRegister(text, tool, args, lifecycle) => Register(l, text, tool, args, lifecycle)
    case DoRegisterGap(slot, text, how) =>
      (match RegisterGap(l, slot, text, how) case Some(m) => m case None => l)
    case DoSetLifecycle(id, lifecycle) => SetLifecycle(l, id, lifecycle)
    case DoRecord(id, observation) => Record(l, id, observation)
    case DoResolve(id, claim) => Resolve(l, id, claim)
    case DoEnsureTerminal => EnsureTerminal(l)
    case DoIngest(snapshot) => Ingest(l, snapshot)
  }

  /** What a caller can check before the call: the record rewrites nothing, the snapshot fits. */
  ghost predicate Allowed(l: State, op: Op) {
    && (op.DoRecord? ==> Harmless(l, op.id, op.observation))
    && (op.DoIngest? ==> Fits(l, Accepted(l, op.snapshot)))
  }

  /** Any sequence of operations from an empty ledger. */
  ghost predicate Linked(trace: seq<State>, ops: seq<Op>) {
    && |trace| == |ops| + 1 && trace[0] == Empty(trace[0].head)
    && forall n :: 0 <= n < |ops| ==> trace[n + 1] == Apply(trace[n], ops[n])
  }

  ghost predicate IsRun(trace: seq<State>, ops: seq<Op>) {
    Linked(trace, ops) && forall n :: 0 <= n < |ops| ==> Allowed(trace[n], ops[n])
  }

  lemma ApplyKeepsOk(l: State, op: Op)
    requires LedgerOk(l) && Allowed(l, op)
    ensures LedgerOk(Apply(l, op)) && EventsKept(l, Apply(l, op))
  {
    hide Supports, Normalized, LedgerOk, QuestionOk, EventOk, Backed, ResolutionFor, Harmless, Fits, Accepted, Ingest;
    if op.DoRecord? {
      RecordKeepsOk(l, op.id, op.observation);
    } else if op.DoResolve? {
      ResolveKeepsOk(l, op.id, op.claim);
    } else if op.DoEnsureTerminal? {
      EnsureKeepsOk(l);
    } else if op.DoIngest? {
      IngestKeepsOkExactly(l, op.snapshot);
    } else {
      QuestionOpKeepsOk(l, op);
    }
  }

  lemma QuestionOpKeepsOk(l: State, op: Op)
    requires LedgerOk(l) && (op.DoRegister? || op.DoRegisterGap? || op.DoSetLifecycle?)
    ensures LedgerOk(Apply(l, op)) && EventsKept(l, Apply(l, op)) && (Orderly(l) ==> Orderly(Apply(l, op)))
  {
    hide Supports, Normalized, EventOk, Backed, ResolutionFor, Orderly, AnswersOk, Ingest, Record, EnsureTerminal;
    var m := Apply(l, op);
    if m != l {
      var id := if op.DoRegister? then AskedId(op.text, op.tool, op.args)
                else if op.DoRegisterGap? then Gap(Normalized(op.slot)) else op.id;
      if id in l.questions { assert QuestionOk(l, id); }
      RegisterKeepsOk(l, m, id);
    }
  }

  lemma {:induction false} RunIsOk(trace: seq<State>, ops: seq<Op>, m: nat, n: nat)
    requires IsRun(trace, ops) && m <= n < |trace|
    ensures LedgerOk(trace[n]) && EventsKept(trace[m], trace[n])
    decreases n
  {
    hide Supports, Apply, LedgerOk, Allowed;
    if n == 0 {
      EmptyIsOk(trace[0].head);
    } else {
      var k := if m < n then m else n - 1;
      RunIsOk(trace, ops, k, n - 1);
      assert Allowed(trace[n - 1], ops[n - 1]);
      ApplyKeepsOk(trace[n - 1], ops[n - 1]);
    }
  }

  lemma EmptyIsOk(head: string)
    ensures LedgerOk(Empty(head)) && Orderly(Empty(head))
  {
  }

  /**
    An answered resolution rests on events of its own question that can answer at the declared head, and
    nothing recorded or ingested later takes that away.
   */
  lemma AnswersStayBacked(trace: seq<State>, ops: seq<Op>, m: nat, n: nat, id: QuestionId, ref: EventId)
    requires IsRun(trace, ops) && m <= n < |trace| && id in trace[m].resolutions
    requires trace[m].resolutions[id].status == "answered"
    ensures trace[m].resolutions[id].refs != []
    ensures ref in trace[m].resolutions[id].refs ==>
              && ref in trace[m].events && ref in trace[n].events && trace[n].events[ref] == trace[m].events[ref]
              && trace[n].events[ref].questionId == id && Supports(trace[n].events[ref], trace[n].head)
  {
    hide Supports, Apply, Allowed;
    RunIsOk(trace, ops, m, n);
    RunIsOk(trace, ops, m, m);
    assert Backed(trace[m], trace[m].resolutions[id]);
  }

  // ------------------------------------------------------------- how the ledger is used

  /** A snapshot that another ledger of this head gave out, with proper names and every event listed. */
  ghost predicate OwnSnapshot(s: Snapshot, l: State, head: string) {
    LedgerOk(l) && Orderly(l) && l.head == head && ProperNames(EnsureTerminal(l)) && Describes(s, EnsureTerminal(l))
  }

  /** Events go to registered questions, and a snapshot seeds an empty ledger with what one of its head gave out. */
  ghost predicate Customary(l: State, op: Op) {
    && (op.DoRecord? ==> op.id in l.questions)
    && (op.DoIngest? ==> l == Empty(l.head) && exists source :: OwnSnapshot(op.snapshot, source, l.head))
  }

  lemma CustomaryIsAllowed(l: State, op: Op)
    requires LedgerOk(l) && Orderly(l) && Customary(l, op)
    ensures Allowed(l, op) && Orderly(Apply(l, op))
  {
    hide Supports, Normalized, LedgerOk, Orderly, Harmless, Fits, Accepted, Ingest, Describes, ResolutionFor;
    if op.DoRecord? {
      RecordIsNew(l, op.id, op.observation);
      RecordStaysOrderly(l, op.id, op.observation);
    } else if op.DoIngest? {
      var source :| OwnSnapshot(op.snapshot, source, l.head);
      OwnSnapshotExactly(source, op.snapshot, l.head);
      IngestKeepsOkExactly(l, op.snapshot);
    } else if op.DoResolve? || op.DoEnsureTerminal? {
      SameListsAreOrderly(l, Apply(l, op));
    } else {
      QuestionOpKeepsOk(l, op);
    }
  }

  lemma SameListsAreOrderly(l: State, m: State)
    requires Orderly(l) && m.questions == l.questions && m.events == l.events
    ensures Orderly(m)
  {
    forall ref | ref in m.events
      ensures EventListed(m, ref)
    {
      assert EventListed(l, ref);
    }
  }

  /** Used that way, no call needs checking: every such sequence is a run, and so keeps its answers. */
  lemma CustomaryUseIsRun(trace: seq<State>, ops: seq<Op>)
    requires Linked(trace, ops) && forall n :: 0 <= n < |ops| ==> Customary(trace[n], ops[n])
    ensures IsRun(trace, ops)
  {
    hide Apply, Allowed, Customary;
    forall n | 0 <= n < |ops|
      ensures Allowed(trace[n], ops[n])
    {
      CustomaryStates(trace, ops, n);
      CustomaryIsAllowed(trace[n], ops[n]);
    }
  }

  lemma {:induction false} CustomaryStates(trace: seq<State>, ops: seq<Op>, n: nat)
    requires Linked(trace, ops) && n < |trace| && forall k :: 0 <= k < |ops| ==> Customary(trace[k], ops[k])
    ensures LedgerOk(trace[n]) && Orderly(trace[n])
  {
    hide Apply, Allowed, Customary, LedgerOk, Orderly;
    if n == 0 {
      EmptyIsOk(trace[0].head);
    } else {
      CustomaryStates(trace, ops, n - 1);
      assert Customary(trace[n - 1], ops[n - 1]);
      CustomaryIsAllowed(trace[n - 1], ops[n - 1]);
      ApplyKeepsOk(trace[n - 1], ops[n - 1]);
    }
  }

  // ------------------------------------------------------- where rewritten events come from

  /** The event lies beyond what its question lists, or its question is not registered. */
  predicate Unlisted(l: State, ref: EventId) {
    ref in l.events && ref.Observed?
    && (ref.question in l.questions ==> ref.attempt >= |l.questions[ref.question].eventIds|)
  }

  /** An event on this question by this tool with these arguments, recorded before the question was registered. */
  predicate RecordedEarly(l: State, op: Op, ref: EventId) {
    && op.DoRecord? && ref.Observed? && op.id == ref.question && op.id !in l.questions
    && op.observation.tool == ref.tool && op.observation.args == ref.args && ref.attempt == 0
  }

  ghost predicate Early(trace: seq<State>, ops: seq<Op>, k: int, ref: EventId)
    requires Linked(trace, ops)
  {
    0 <= k < |ops| && (RecordedEarly(trace[k], ops[k], ref) || ops[k].DoIngest?)
  }

  /** Lists are numbered by attempt, as long as they are the ledger's own. */
  predicate Numbered(l: State) {
    forall id, k :: id in l.questions && 0 <= k < |l.questions[id].eventIds| ==>
                      l.questions[id].eventIds[k].Observed? && l.questions[id].eventIds[k].attempt == k
  }

  lemma StepStaysNumbered(l: State, op: Op)
    requires Numbered(l) && !op.DoIngest?
    ensures Numbered(Apply(l, op))
  {
    hide Normalized, Supports, ResolutionFor;
  }

  lemma {:induction false} NumberedUntilIngest(trace: seq<State>, ops: seq<Op>, n: nat)
    requires Linked(trace, ops) && n < |trace| && forall k :: 0 <= k < n ==> !ops[k].DoIngest?
    ensures Numbered(trace[n])
  {
    hide Apply, Numbered;
    if n == 0 {
      assert Numbered(trace[0]) by { EmptyIsNumbered(trace[0].head); }
    } else {
      NumberedUntilIngest(trace, ops, n - 1);
      StepStaysNumbered(trace[n - 1], ops[n - 1]);
    }
  }

  lemma EmptyIsNumbered(head: string)
    ensures Numbered(Empty(head))
  {
  }

  lemma StepUnlists(l: State, op: Op, ref: EventId)
    requires Numbered(l) && Unlisted(Apply(l, op), ref) && !op.DoIngest?
    ensures Unlisted(l, ref) || RecordedEarly(l, op, ref)
  {
    hide Normalized, Supports, ResolutionFor;
  }

  lemma EmptyUnlistsNothing(head: string, ref: EventId)
    ensures !Unlisted(Empty(head), ref)
  {
  }

  lemma {:induction false} UnlistedComeFrom(trace: seq<State>, ops: seq<Op>, n: nat, ref: EventId)
    requires Linked(trace, ops) && n < |trace| && Unlisted(trace[n], ref)
    ensures exists k :: k < n && Early(trace, ops, k, ref)
  {
    hide Apply, RecordedEarly, Unlisted, Numbered;
    EmptyUnlistsNothing(trace[0].head, ref);
    if k :| 0 <= k < n && ops[k].DoIngest? {
      assert Early(trace, ops, k, ref);
    } else if n > 0 {
      NumberedUntilIngest(trace, ops, n - 1);
      StepUnlists(trace[n - 1], ops[n - 1], ref);
      if Unlisted(trace[n - 1], ref) {
        UnlistedComeFrom(trace, ops, n - 1, ref);
      } else {
        assert Early(trace, ops, n - 1, ref);
      }
    }
  }

  /**
    A record that is not harmless repeats one: the same tool and arguments were recorded on the same id
    before it was registered, unless the event came with a snapshot.
   */
  lemma CollisionsComeFrom(trace: seq<State>, ops: seq<Op>, n: nat, id: QuestionId, o: Observation)
    requires Linked(trace, ops) && n < |trace| && !Harmless(trace[n], id, o)
    ensures exists k :: k < n && Early(trace, ops, k, EventIdFor(trace[n], id, o))
  {
    hide Apply, RecordedEarly, Supports, EventFor;
    UnlistedComeFrom(trace, ops, n, EventIdFor(trace[n], id, o));
  }

  /** Recording twice on a question that is not registered rewrites the event, unless nothing changed. */
  lemma SecondEarlyRecordRewrites(l: State, id: QuestionId, first: Observation, second: Observation)
    requires id !in l.questions && first.tool == second.tool && first.args == second.args
    ensures var one := Record(l, id, first);
            EventsKept(one, Record(one, id, second)) <==> EventFor(one, id, second) == EventFor(l, id, first)
  {
    hide Normalized;
    RecordKeepsEventsExactly(Record(l, id, first), id, second);
  }

  /** And so an answer can lose its evidence, in any ledger and at any head. */
  lemma UnregisteredEventsAreRewritten(l: State, id: QuestionId, good: Observation, bad: Observation)
    requires id !in l.questions && good.tool == bad.tool && good.args == bad.args
    requires Supports(EventFor(l, id, good), l.head) && !Supports(EventFor(l, id, bad), l.head)
    ensures var ref := EventIdFor(l, id, good);
            var one := Record(l, id, good);
            var two := Resolve(one, id, Claim("answered", Some([ref]), "", "", "", []));
            var three := Record(two, id, bad);
            && two.resolutions[id].status == "answered" && Backed(two, two.resolutions[id])
            && three.resolutions == two.resolutions && !Backed(three, three.resolutions[id])
  {
    hide Normalized, Supports;
    var ref := EventIdFor(l, id, good);
    var one := Record(l, id, good);
    assert Eligible(one, id, ref);
    assert FirstSeen([ref]) == [ref];
    assert Keep(one, id, [ref]) == [ref];
    var two := Resolve(one, id, Claim("answered", Some([ref]), "", "", "", []));
    assert ref in two.resolutions[id].refs;
    assert EventFor(two, id, bad) == EventFor(l, id, bad);
  }

  /** Such observations exist at every head that a source reference can name: a hit at it, then an error. */
  lemma HitThenError(l: State, id: QuestionId, tool: string, args: string, name: string)
    requires l.head == name != "" && forall i :: 0 <= i < |name| ==> !Space(name[i]) && name[i] != ':'
    ensures Supports(EventFor(l, id, Observation(tool, args, "hit", "pr_head:" + name, "", [])), l.head)
    ensures !Supports(EventFor(l, id, Observation(tool, args, "error", "pr_head:" + name, "", [])), l.head)
  {
    hide Squeeze, Strip;
    var source := "pr_head:" + name;
    SolidIsNormalized(name);
    SolidIsNormalized(source);
    assert Lower(source)[8..] == Lower(name);
    assert Lower(source)[..8] == "pr_head:";
    assert source[7] == ':' && "default_branch_search"[7] != ':';
    assert forall i :: 0 <= i < |name| ==> Lower(name)[i] != ':' && !Space(Lower(name)[i]);
    assert ExactHead(source) == Some(Lower(name));
  }

  lemma SolidIsNormalized(s: string)
    requires forall i :: 0 <= i < |s| ==> !Space(s[i])
    ensures Normalized(s) == s
  {
    SolidIsSqueezed(s);
  }

  lemma {:induction false} SolidIsSqueezed(s: string)
    requires forall i :: 0 <= i < |s| ==> !Space(s[i])
    ensures Squeeze(s) == s
  {
    if s != [] { SolidIsSqueezed(s[1..]); }
  }
}
