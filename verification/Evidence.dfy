/**
  Questions, evidence events and resolutions of one review.

  Stable ids are modelled by the values they digest, and structured arguments by their canonical text.
 */
module Evidence {
  import opened Wrappers
  import opened Strings

  datatype QuestionId =
    | Asked(question: string, tool: string, args: string)
    | Gap(slot: string)
    | Named(text: string)               // any other string a caller may pass

  datatype EventId =
    | Observed(question: QuestionId, tool: string, args: string, attempt: nat)
    | Cited(text: string)

  datatype Question = Question(
    id: QuestionId, text: string, tool: string, args: string, lifecycle: string, eventIds: seq<EventId>)

  datatype Hit = Hit(outcome: string, head: string)

  datatype Event = Event(
    id: EventId, questionId: QuestionId, tool: string, args: string,
    outcome: string, sourceRef: string, reread: string, lineage: seq<Hit>)

  datatype Resolution = Resolution(
    questionId: QuestionId, status: string, refs: seq<EventId>, conclusion: string, howToCheck: string,
    provenanceKind: string, provenanceRefs: seq<string>)

  datatype State = State(
    head: string, questions: map<QuestionId, Question>, events: map<EventId, Event>,
    resolutions: map<QuestionId, Resolution>)

  function Empty(head: string): State {
    State(head, map[], map[], map[])
  }

  // ------------------------------------------------------------------------- text

  /** Runs of whitespace become one space. */
  function Squeeze(s: string): string {
    if s == "" then ""
    else if !Space(s[0]) then [s[0]] + Squeeze(s[1..])
    else if |s| > 1 && Space(s[1]) then Squeeze(s[1..])
    else " " + Squeeze(s[1..])
  }

  function Normalized(s: string): string {
    Strip(Squeeze(s))
  }

  function FirstSeen<T(==)>(s: seq<T>): seq<T> {
    if s == [] then []
    else
      var front, last := FirstSeen(s[..|s| - 1]), s[|s| - 1];
      if last in front then front else front + [last]
  }

  lemma {:induction false} FirstSeenMembers<T>(s: seq<T>, x: T)
    ensures x in FirstSeen(s) <==> x in s
  {
    if s != [] { FirstSeenMembers(s[..|s| - 1], x); }
  }

  // ------------------------------------------------------------- answer eligibility

  predicate StartsWith(s: string, prefix: string) {
    |prefix| <= |s| && s[..|prefix|] == prefix
  }

  /** The head named by an exact-head source reference, in lower case. */
  function ExactHead(source: string): Option<string> {
    var s := Lower(source);
    var rest := if StartsWith(s, "pr_head:") then s[8..]
                else if StartsWith(s, "pr_head_inventory:") then s[18..]
                else if StartsWith(s, "pr_head_tree:") then s[13..]
                else "";
    if rest == "" || exists i :: 0 <= i < |rest| && (rest[i] == ':' || Space(rest[i])) then None else Some(rest)
  }

  /** `event_supports_answer`: a hit observed at the expected head. */
  predicate Supports(e: Event, expectedHead: string) {
    var expected := Lower(Normalized(expectedHead));
    var source := Normalized(e.sourceRef);
    && e.outcome == "hit"
    && (if expected == "" then source != "default_branch_search"
        else if source == "default_branch_search" then
          && Normalized(e.reread) == "relocated_at_head"
          && e.lineage != []
          && forall i :: 0 <= i < |e.lineage| ==>
               Normalized(e.lineage[i].outcome) == "relocated_at_head" && Lower(Normalized(e.lineage[i].head)) == expected
        else ExactHead(source) == Some(expected))
  }

  /** Once a head is declared, an event can answer for that head and for no other. */
  lemma SupportsOneHead(e: Event, head: string, other: string)
    requires Supports(e, head) && Supports(e, other)
    requires Normalized(head) != "" && Normalized(other) != ""
    ensures Lower(Normalized(head)) == Lower(Normalized(other))
  {
    hide Normalized, ExactHead;
    assert |Lower(Normalized(head))| == |Normalized(head)| && |Lower(Normalized(other))| == |Normalized(other)|;
    if Normalized(e.sourceRef) == "default_branch_search" {
      assert Lower(Normalized(e.lineage[0].head)) == Lower(Normalized(head));
    }
  }

  // ----------------------------------------------------------------- what calls do

  predicate Lifecycle(name: string) {
    name in {"planned", "executed", "derived_gap", "dropped_invalid", "dropped_redundant", "dropped_cap",
             "budget_skipped", "terminal_unexecuted"}
  }

  predicate Status(name: string) {
    name in {"answered", "unknown", "contradicted"}
  }

  function AskedId(text: string, tool: string, args: string): QuestionId {
    Asked(Lower(QuestionText(text, tool)), tool, args)
  }

  function QuestionText(text: string, tool: string): string {
    if Normalized(text) != "" then Normalized(text) else "Verify with " + tool + "."
  }

  function Register(l: State, text: string, tool: string, args: string, lifecycle: string): State {
    var id := AskedId(text, tool, args);
    if id !in l.questions then
      var q := Question(id, QuestionText(text, tool), tool, args, if Lifecycle(lifecycle) then lifecycle else "planned", []);
      l.(questions := l.questions[id := q])
    else if Lifecycle(lifecycle) then l.(questions := l.questions[id := l.questions[id].(lifecycle := lifecycle)])
    else l
  }

  /** A gap keeps its first wording; an empty slot is refused before anything changes. */
  function RegisterGap(l: State, slot: string, text: string, howToCheck: string): Option<State> {
    var name := Normalized(slot);
    if name == "" then None
    else if Gap(name) in l.questions then Some(l)
    else
      var display := if Normalized(text) != "" then Normalized(text) else "Manual verification.";
      var q := Question(Gap(name), display, "manual_verification", Normalized(howToCheck), "derived_gap", []);
      Some(l.(questions := l.questions[Gap(name) := q]))
  }

  function SetLifecycle(l: State, id: QuestionId, lifecycle: string): State {
    if id in l.questions && Lifecycle(lifecycle)
    then l.(questions := l.questions[id := l.questions[id].(lifecycle := lifecycle)])
    else l
  }

  datatype Observation = Observation(
    tool: string, args: string, outcome: string, sourceRef: string, reread: string, lineage: seq<Hit>)

  function EventIdFor(l: State, id: QuestionId, o: Observation): EventId {
    Observed(id, o.tool, o.args, if id in l.questions then |l.questions[id].eventIds| else 0)
  }

  function EventFor(l: State, id: QuestionId, o: Observation): Event {
    Event(EventIdFor(l, id, o), id, o.tool, o.args, if o.outcome != "" then o.outcome else "unknown",
          Normalized(o.sourceRef), Normalized(o.reread), o.lineage[..if |o.lineage| < 20 then |o.lineage| else 20])
  }

  function Record(l: State, id: QuestionId, o: Observation): State {
    var e := EventFor(l, id, o);
    var stored := l.(events := l.events[e.id := e]);
    if id !in l.questions then stored
    else
      var q := l.questions[id];
      var ids := if e.id in q.eventIds then q.eventIds else q.eventIds + [e.id];
      stored.(questions := l.questions[id := q.(eventIds := ids, lifecycle := "executed")])
  }

  predicate Eligible(l: State, id: QuestionId, ref: EventId) {
    ref in l.events && l.events[ref].questionId == id && Supports(l.events[ref], l.head)
  }

  function Keep(l: State, id: QuestionId, refs: seq<EventId>): seq<EventId> {
    if refs == [] then []
    else
      var front, last := Keep(l, id, refs[..|refs| - 1]), refs[|refs| - 1];
      if Eligible(l, id, last) then front + [last] else front
  }

  /** `supporting_event_ids`: the question's own events that can answer. */
  function Supporting(l: State, ids: seq<EventId>): seq<EventId> {
    if ids == [] then []
    else
      var front, last := Supporting(l, ids[..|ids| - 1]), ids[|ids| - 1];
      if last in l.events && Supports(l.events[last], l.head) then front + [last] else front
  }

  function OwnSupporting(l: State, id: QuestionId): seq<EventId> {
    if id in l.questions then Supporting(l, l.questions[id].eventIds) else []
  }

  datatype Claim = Claim(
    status: string, refs: Option<seq<EventId>>, conclusion: string, howToCheck: string,
    provenanceKind: string, provenanceRefs: seq<string>)

  function NonEmptyTexts(s: seq<string>): seq<string> {
    if s == [] then []
    else if s[|s| - 1] == "" then NonEmptyTexts(s[..|s| - 1])
    else NonEmptyTexts(s[..|s| - 1]) + [s[|s| - 1]]
  }

  function ResolutionFor(l: State, id: QuestionId, c: Claim): Resolution {
    var requested := if c.refs.Some? then FirstSeen(c.refs.value) else [];
    var kept := Keep(l, id, requested);
    var invalid := c.refs.Some? && (requested == [] || |kept| != |requested|);
    var status := if Status(c.status) then c.status else "unknown";
    var own := OwnSupporting(l, id);
    var refs := if status == "answered" && c.refs.None? && |own| == 1 then own else kept;
    if status == "answered" && (refs == [] || invalid) then Resolution(id, "unknown", [], "", "", "", [])
    else Resolution(id, status, refs, Normalized(c.conclusion), Normalized(c.howToCheck),
                    Normalized(c.provenanceKind), FirstSeen(NonEmptyTexts(c.provenanceRefs)))
  }

  function Resolve(l: State, id: QuestionId, c: Claim): State {
    l.(resolutions := l.resolutions[id := ResolutionFor(l, id, c)])
  }

  const Unresolved := Claim("unknown", None, "Verification did not produce supporting evidence.",
                            "Run the recorded lookup or inspect the referenced repository path.", "", [])

  /** Every registered question without a resolution becomes an unknown one. */
  function EnsureTerminal(l: State): State {
    l.(resolutions := map id | id in l.questions.Keys + l.resolutions.Keys ::
         if id in l.resolutions then l.resolutions[id] else ResolutionFor(l, id, Unresolved))
  }

  // ---------------------------------------------------------------------- invariant

  /** A question's events are numbered by attempt in order, and are stored under its own id. */
  predicate QuestionOk(l: State, id: QuestionId)
    requires id in l.questions
  {
    var q := l.questions[id];
    && q.id == id && !id.Named?
    && forall k :: 0 <= k < |q.eventIds| ==>
         && q.eventIds[k].Observed? && q.eventIds[k].question == id && q.eventIds[k].attempt == k
         && q.eventIds[k] in l.events && l.events[q.eventIds[k]].questionId == id
  }

  /** A stored event stands under its own identity, which names its question. */
  predicate EventOk(e: Event, ref: EventId) {
    e.id == ref && ref.Observed? && e.questionId == ref.question
  }

  predicate Backed(l: State, r: Resolution) {
    r.status == "answered" ==> r.refs != [] && forall ref :: ref in r.refs ==> Eligible(l, r.questionId, ref)
  }

  ghost predicate AnswersOk(l: State) {
    forall id :: id in l.resolutions ==> l.resolutions[id].questionId == id && Backed(l, l.resolutions[id])
  }

  ghost predicate LedgerOk(l: State) {
    && (forall id :: id in l.questions ==> QuestionOk(l, id))
    && (forall ref :: ref in l.events ==> EventOk(l.events[ref], ref))
    && AnswersOk(l)
  }

  /** Events are never rewritten, only added. */
  ghost predicate EventsKept(l: State, m: State) {
    m.head == l.head && forall ref :: ref in l.events ==> ref in m.events && m.events[ref] == l.events[ref]
  }

  lemma BackedStays(l: State, m: State, r: Resolution)
    requires Backed(l, r) && EventsKept(l, m)
    ensures Backed(m, r)
  {
  }

  lemma AnswersStay(l: State, m: State)
    requires AnswersOk(l) && EventsKept(l, m) && m.resolutions == l.resolutions
    ensures AnswersOk(m)
  {
    forall id | id in m.resolutions { BackedStays(l, m, m.resolutions[id]); }
  }

  // ---------------------------------------------------------------- recording events

  /** The id of this record is unused, or the event under it is this very event. */
  predicate Harmless(l: State, id: QuestionId, o: Observation) {
    var e := EventIdFor(l, id, o);
    e !in l.events || l.events[e] == EventFor(l, id, o)
  }

  /** Recording rewrites an earlier event exactly when it is not harmless. */
  lemma RecordKeepsEventsExactly(l: State, id: QuestionId, o: Observation)
    ensures EventsKept(l, Record(l, id, o)) <==> Harmless(l, id, o)
  {
    hide Normalized;
    var e := EventIdFor(l, id, o);
    assert Record(l, id, o).events == l.events[e := EventFor(l, id, o)];
  }

  /** No answer cites the event that this record writes, unless the new event can bear it. */
  predicate LeavesAnswers(l: State, id: QuestionId, o: Observation) {
    (exists r :: r in l.resolutions && Cites(l.resolutions[r], EventIdFor(l, id, o))) ==> Supports(EventFor(l, id, o), l.head)
  }

  predicate Cites(r: Resolution, ref: EventId) {
    r.status == "answered" && ref in r.refs
  }

  /** Every answer stays backed by a record exactly when the record leaves the cited evidence able to answer. */
  lemma RecordKeepsOkExactly(l: State, id: QuestionId, o: Observation)
    requires LedgerOk(l)
    ensures LedgerOk(Record(l, id, o)) <==> LeavesAnswers(l, id, o)
  {
    hide Supports, Normalized, QuestionOk, Backed;
    var m, e := Record(l, id, o), EventIdFor(l, id, o);
    forall q | q in m.questions { RecordQuestionOk(l, id, o, q); }
    forall ref | ref in m.events ensures EventOk(m.events[ref], ref) {}
    forall r | r in m.resolutions
      ensures Backed(m, m.resolutions[r]) <==> (Cites(l.resolutions[r], e) ==> Supports(EventFor(l, id, o), l.head))
    {
      RecordBacked(l, id, o, l.resolutions[r]);
    }
  }

  lemma RecordQuestionOk(l: State, id: QuestionId, o: Observation, q: QuestionId)
    requires q in l.questions && QuestionOk(l, q)
    ensures QuestionOk(Record(l, id, o), q)
  {
    hide Normalized;
  }

  lemma RecordBacked(l: State, id: QuestionId, o: Observation, r: Resolution)
    requires Backed(l, r) && (EventIdFor(l, id, o) in l.events ==> l.events[EventIdFor(l, id, o)].questionId == id)
    ensures Backed(Record(l, id, o), r) <==> (Cites(r, EventIdFor(l, id, o)) ==> Supports(EventFor(l, id, o), l.head))
  {
    hide Normalized, Supports;
    var m, e := Record(l, id, o), EventIdFor(l, id, o);
    assert m.events == l.events[e := EventFor(l, id, o)] && m.head == l.head;
    forall ref | ref in r.refs && ref != e
      ensures Eligible(m, r.questionId, ref) <==> Eligible(l, r.questionId, ref)
    {
    }
    if Cites(r, e) {
      assert Eligible(l, r.questionId, e);
      assert Eligible(m, r.questionId, e) <==> Supports(EventFor(l, id, o), l.head);
    }
  }

  lemma RecordKeepsOk(l: State, id: QuestionId, o: Observation)
    requires LedgerOk(l) && Harmless(l, id, o)
    ensures LedgerOk(Record(l, id, o)) && EventsKept(l, Record(l, id, o))
  {
    hide Supports, Normalized, QuestionOk, Eligible;
    RecordKeepsOkExactly(l, id, o);
    RecordKeepsEventsExactly(l, id, o);
    if exists r :: r in l.resolutions && Cites(l.resolutions[r], EventIdFor(l, id, o)) {
      var r :| r in l.resolutions && Cites(l.resolutions[r], EventIdFor(l, id, o));
      assert Backed(l, l.resolutions[r]);
      assert Eligible(l, l.resolutions[r].questionId, EventIdFor(l, id, o)) by { hide LedgerOk; }
      EligibleSupports(l, l.resolutions[r].questionId, EventIdFor(l, id, o));
    }
  }

  lemma EligibleSupports(l: State, id: QuestionId, ref: EventId)
    requires Eligible(l, id, ref)
    ensures ref in l.events && Supports(l.events[ref], l.head)
  {
    hide Supports;
  }

  /** Every stored event is one that its registered question lists. */
  ghost predicate Orderly(l: State) {
    forall ref :: ref in l.events ==> EventListed(l, ref)
  }

  predicate EventListed(l: State, ref: EventId)
    requires ref in l.events
  {
    var id := l.events[ref].questionId;
    id in l.questions && ref in l.questions[id].eventIds
  }

  /** Where every event is listed, an event on a registered question gets an id that nothing uses. */
  lemma RecordIsNew(l: State, id: QuestionId, o: Observation)
    requires LedgerOk(l) && Orderly(l) && id in l.questions
    ensures EventIdFor(l, id, o) !in l.events && EventIdFor(l, id, o) !in l.questions[id].eventIds
    ensures Harmless(l, id, o)
  {
    hide Supports, Normalized, EventFor, AnswersOk;
    var e := EventIdFor(l, id, o);
    ListedBefore(l, id, e);
    if e in l.events {
      assert EventListed(l, e);
      ListedBefore(l, l.events[e].questionId, e);
    }
  }

  /** A listed event belongs to the question it is listed under, with an attempt number already used. */
  lemma ListedBefore(l: State, id: QuestionId, e: EventId)
    requires LedgerOk(l) && id in l.questions
    ensures e in l.questions[id].eventIds ==> e.Observed? && e.question == id && e.attempt < |l.questions[id].eventIds|
  {
    hide Supports, AnswersOk;
    assert QuestionOk(l, id);
  }

  lemma RecordStaysOrderly(l: State, id: QuestionId, o: Observation)
    requires LedgerOk(l) && Orderly(l) && id in l.questions
    ensures Orderly(Record(l, id, o))
  {
    hide Supports, Normalized, AnswersOk;
    RecordIsNew(l, id, o);
    var m := Record(l, id, o);
    forall ref | ref in m.events
      ensures EventListed(m, ref)
    {
      if ref != EventIdFor(l, id, o) { assert EventListed(l, ref); }
    }
  }

  lemma RegisterKeepsOk(l: State, m: State, id: QuestionId)
    requires LedgerOk(l) && m.head == l.head && m.events == l.events && m.resolutions == l.resolutions
    requires id in m.questions && m.questions == l.questions[id := m.questions[id]] && m.questions[id].id == id && !id.Named?
    requires m.questions[id].eventIds == if id in l.questions then l.questions[id].eventIds else []
    ensures LedgerOk(m) && (Orderly(l) ==> Orderly(m))
  {
    hide Supports, Backed;
    forall q | q in m.questions
      ensures QuestionOk(m, q)
    {
      if q in l.questions { assert QuestionOk(l, q); }
    }
    AnswersStay(l, m);
    if Orderly(l) {
      forall ref | ref in m.events
        ensures EventListed(m, ref)
      {
        assert EventListed(l, ref);
      }
    }
  }

  lemma {:induction false} KeptAreEligible(l: State, id: QuestionId, refs: seq<EventId>)
    ensures forall ref :: ref in Keep(l, id, refs) ==> Eligible(l, id, ref)
    ensures |Keep(l, id, refs)| <= |refs|
    ensures |Keep(l, id, refs)| == |refs| ==> Keep(l, id, refs) == refs
    ensures |Keep(l, id, refs)| == |refs| <==> forall ref :: ref in refs ==> Eligible(l, id, ref)
  {
    hide Eligible;
    if refs != [] {
      KeptAreEligible(l, id, refs[..|refs| - 1]);
      assert refs == refs[..|refs| - 1] + [refs[|refs| - 1]];
    }
  }

  lemma {:induction false} SupportingAreEligible(l: State, id: QuestionId, ids: seq<EventId>)
    requires forall k :: 0 <= k < |ids| ==> ids[k] in l.events && l.events[ids[k]].questionId == id
    ensures forall ref :: ref in Supporting(l, ids) <==> ref in ids && Eligible(l, id, ref)
  {
    hide Supports;
    if ids != [] { SupportingAreEligible(l, id, ids[..|ids| - 1]); }
  }

  lemma OwnSupportingAreEligible(l: State, id: QuestionId)
    requires LedgerOk(l)
    ensures forall ref :: ref in OwnSupporting(l, id) ==> Eligible(l, id, ref)
  {
    hide Supports;
    if id in l.questions {
      assert QuestionOk(l, id);
      SupportingAreEligible(l, id, l.questions[id].eventIds);
    }
  }

  /** A resolution is answered exactly when its evidence is bound: all cited refs eligible, or one sole candidate. */
  lemma AnsweredExactly(l: State, id: QuestionId, c: Claim)
    requires LedgerOk(l)
    ensures ResolutionFor(l, id, c).status == "answered" <==>
            && c.status == "answered"
            && (if c.refs.Some? then c.refs.value != [] && forall ref :: ref in c.refs.value ==> Eligible(l, id, ref)
                else |OwnSupporting(l, id)| == 1)
    ensures Backed(l, ResolutionFor(l, id, c))
  {
    hide Supports, Normalized, LedgerOk, OwnSupporting, Eligible;
    OwnSupportingAreEligible(l, id);
    if c.refs.Some? {
      var requested := FirstSeen(c.refs.value);
      forall ref { FirstSeenMembers(c.refs.value, ref); }
      KeptAreEligible(l, id, requested);
      if c.refs.value != [] { assert c.refs.value[0] in requested; }
      if requested != [] { assert requested[0] in c.refs.value; }
    }
  }

  lemma ResolveKeepsOk(l: State, id: QuestionId, c: Claim)
    requires LedgerOk(l)
    ensures LedgerOk(Resolve(l, id, c))
  {
    hide Supports, Normalized;
    AnswersExactlyOk(l, id, c);
    var m := Resolve(l, id, c);
    forall q | q in m.questions
      ensures QuestionOk(m, q)
    {
      assert QuestionOk(l, q);
    }
  }

  lemma AnswersExactlyOk(l: State, id: QuestionId, c: Claim)
    requires LedgerOk(l)
    ensures AnswersOk(Resolve(l, id, c))
  {
    hide Supports, Normalized, QuestionOk, EventOk, Backed, ResolutionFor;
    AnsweredExactly(l, id, c);
    ResolutionNamesQuestion(l, id, c);
    var m := Resolve(l, id, c);
    forall r | r in m.resolutions
      ensures m.resolutions[r].questionId == r && Backed(m, m.resolutions[r])
    {
      BackedStays(l, m, m.resolutions[r]);
    }
  }

  lemma ResolutionNamesQuestion(l: State, id: QuestionId, c: Claim)
    ensures ResolutionFor(l, id, c).questionId == id
  {
    hide Keep, OwnSupporting, Normalized;
  }

  lemma EnsureKeepsOk(l: State)
    requires LedgerOk(l)
    ensures LedgerOk(EnsureTerminal(l))
  {
    hide Supports, ResolutionFor;
    var m := EnsureTerminal(l);
    forall q | q in m.questions
      ensures QuestionOk(m, q)
    {
      assert QuestionOk(l, q);
    }
    forall r | r in m.resolutions
      ensures m.resolutions[r].questionId == r && Backed(m, m.resolutions[r])
    {
      if r in l.resolutions { BackedStays(l, m, m.resolutions[r]); } else { UnresolvedIsUnknown(l, r); }
    }
  }

  lemma UnresolvedIsUnknown(l: State, id: QuestionId)
    ensures ResolutionFor(l, id, Unresolved).questionId == id && ResolutionFor(l, id, Unresolved).status == "unknown"
  {
  }
}
