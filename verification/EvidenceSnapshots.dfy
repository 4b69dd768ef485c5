/** Snapshots of an evidence ledger: giving one out, and merging one into another ledger. */
module EvidenceSnapshots {
  import opened Wrappers
  import opened Strings
  import opened Evidence

  datatype Snapshot = Snapshot(questions: seq<Question>, events: seq<Event>, resolutions: seq<Resolution>)

  /** The values of a dictionary, in some order. */
  ghost predicate Lists<K(!new), V(!new)>(values: seq<V>, m: map<K, V>) {
    forall v :: v in values <==> exists k :: k in m && m[k] == v
  }

  ghost predicate Describes(s: Snapshot, l: State) {
    Lists(s.questions, l.questions) && Lists(s.events, l.events) && Lists(s.resolutions, l.resolutions)
  }

  function QuestionKey(id: QuestionId): Option<QuestionId> {
    if !id.Named? then Some(id)
    else if Normalized(id.text) == "" then None
    else Some(Named(Normalized(id.text)))
  }

  function EventKey(id: EventId): Option<EventId> {
    if !id.Cited? then Some(id)
    else if Normalized(id.text) == "" then None
    else Some(Cited(Normalized(id.text)))
  }

  /** A value whose identity is taken by a different one. */
  predicate Conflicts<K(==), V(==)>(entries: map<K, V>, v: V, key: V -> Option<K>) {
    key(v).Some? && key(v).value in entries && entries[key(v).value] != v
  }

  /** The entries after merging: those without identity are skipped, and the first one of an identity stays. */
  function Merged<K(==), V>(destination: map<K, V>, values: seq<V>, key: V -> Option<K>): map<K, V> {
    if values == [] then destination
    else
      var front, v := Merged(destination, values[..|values| - 1], key), values[|values| - 1];
      if key(v).None? || key(v).value in front then front else front[key(v).value := v]
  }

  /** One merge loop of `ingest_meta` takes the values before the first conflict, and stops there with an error. */
  function Cut<K(==), V(==)>(destination: map<K, V>, values: seq<V>, key: V -> Option<K>): (taken: seq<V>)
    ensures taken <= values
  {
    if values == [] then []
    else
      var n := |values| - 1;
      var front := Cut(destination, values[..n], key);
      if |front| < n || Conflicts(Merged(destination, front, key), values[n], key) then front else values
  }

  function KeyOfQuestion(q: Question): Option<QuestionId> {
    QuestionKey(q.id)
  }

  function KeyOfEvent(e: Event): Option<EventId> {
    EventKey(e.id)
  }

  function KeyOfResolution(r: Resolution): Option<QuestionId> {
    QuestionKey(r.questionId)
  }

  /** The part of a snapshot that is merged: everything, or what precedes the first conflict. */
  function Accepted(l: State, s: Snapshot): Snapshot {
    var questions := Cut(l.questions, s.questions, KeyOfQuestion);
    var events := if questions == s.questions then Cut(l.events, s.events, KeyOfEvent) else [];
    var resolutions := if questions == s.questions && events == s.events
                       then Cut(l.resolutions, s.resolutions, KeyOfResolution) else [];
    Snapshot(questions, events, resolutions)
  }

  /** `ingest_meta`: what it leaves in the ledger, whether or not it ends with a conflict. */
  function Ingest(l: State, s: Snapshot): State {
    var a := Accepted(l, s);
    l.(questions := Merged(l.questions, a.questions, KeyOfQuestion),
       events := Merged(l.events, a.events, KeyOfEvent),
       resolutions := Merged(l.resolutions, a.resolutions, KeyOfResolution))
  }

  // ------------------------------------------------------------------- merging values

  /** The entries come from the destination or from a value under its identity, and the former all stay. */
  lemma {:induction false} MergedEntries<K(!new), V(!new)>(destination: map<K, V>, values: seq<V>, key: V -> Option<K>)
    ensures var m := Merged(destination, values, key);
            && (forall k :: k in destination ==> k in m && m[k] == destination[k])
            && (forall k :: k in m ==> (k in destination && m[k] == destination[k]) || (m[k] in values && key(m[k]) == Some(k)))
            && (forall v :: v in values && key(v).Some? ==> key(v).value in m)
  {
    if values != [] {
      var front, v := values[..|values| - 1], values[|values| - 1];
      assert values == front + [v];
      MergedEntries(destination, front, key);
    }
  }

  lemma CutLast<K, V>(destination: map<K, V>, values: seq<V>, key: V -> Option<K>)
    requires values != []
    ensures var n := |values| - 1;
            var front := Cut(destination, values[..n], key);
            Cut(destination, values, key)
            == if |front| < n || Conflicts(Merged(destination, front, key), values[n], key) then front else values
  {
    hide Merged, Conflicts;
  }

  lemma MergedLast<K, V>(destination: map<K, V>, values: seq<V>, key: V -> Option<K>)
    requires values != []
    ensures var n := |values| - 1;
            var m, k := Merged(destination, values[..n], key), key(values[n]);
            Merged(destination, values, key) == if k.None? || k.value in m then m else m[k.value := values[n]]
  {
  }

  /** Without a conflict, every identified value is the entry of its identity. */
  lemma {:induction false} TakenAreFiled<K(!new), V(!new)>(destination: map<K, V>, values: seq<V>, key: V -> Option<K>)
    ensures var taken := Cut(destination, values, key);
            && Cut(destination, taken, key) == taken
            && forall v :: v in taken && key(v).Some? ==>
                             key(v).value in Merged(destination, taken, key) && Merged(destination, taken, key)[key(v).value] == v
  {
    hide Cut, Merged;
    if values == [] {
      assert Cut(destination, values, key) == [];
    } else {
      var n := |values| - 1;
      TakenAreFiled(destination, values[..n], key);
      CutLast(destination, values, key);
      var front := Cut(destination, values[..n], key);
      if |front| < n || Conflicts(Merged(destination, front, key), values[n], key) {
        assert Cut(destination, values, key) == front;
      } else {
        assert front == values[..n] && values == values[..n] + [values[n]];
        MergedEntries(destination, values[..n], key);
        MergedLast(destination, values, key);
      }
    }
  }

  /** Values that agree wherever they share an identity are all taken. */
  lemma {:induction false} AgreeingAreTaken<K(!new), V(!new)>(values: seq<V>, key: V -> Option<K>)
    requires forall v, w :: v in values && w in values && key(v) == key(w) && key(v).Some? ==> v == w
    ensures Cut(map[], values, key) == values
  {
    if values != [] {
      var n := |values| - 1;
      var front := values[..n];
      assert forall w :: w in front ==> w in values;
      AgreeingAreTaken(front, key);
      MergedEntries(map[], front, key);
    }
  }

  /** Listing a dictionary and merging it into nothing gives it back exactly when its keys are its identities. */
  lemma MergeRebuilds<K(!new), V(!new)>(m: map<K, V>, values: seq<V>, key: V -> Option<K>)
    requires Lists(values, m)
    ensures Cut(map[], values, key) == values && Merged(map[], values, key) == m <==> forall k :: k in m ==> key(m[k]) == Some(k)
  {
    MergedEntries(map[], values, key);
    if forall k :: k in m ==> key(m[k]) == Some(k) {
      forall v, w | v in values && w in values && key(v) == key(w) && key(v).Some?
        ensures v == w
      {
        var j :| j in m && m[j] == v;
        var k :| k in m && m[k] == w;
      }
      AgreeingAreTaken(values, key);
      TakenAreFiled(map[], values, key);
      var r := Merged(map[], values, key);
      forall k | k in m
        ensures k in r && r[k] == m[k]
      {
        assert m[k] in values;
      }
      forall k | k in r
        ensures k in m
      {
        var j :| j in m && m[j] == r[k];
      }
      assert r == m;
    }
  }

  predicate Proper(id: QuestionId) {
    id.Named? ==> id.text == Normalized(id.text) != ""
  }

  // ------------------------------------------------- which snapshots keep the invariant

  /** The event is in the ledger already, or the snapshot brings it. */
  predicate Holds(l: State, s: Snapshot, ref: EventId) {
    ref in l.events || exists e :: e in s.events && e.id == ref
  }

  predicate QuestionFits(l: State, s: Snapshot, q: Question) {
    QuestionKey(q.id).Some? ==>
      && !q.id.Named?
      && forall k :: 0 <= k < |q.eventIds| ==>
           && q.eventIds[k].Observed? && q.eventIds[k].question == q.id && q.eventIds[k].attempt == k
           && Holds(l, s, q.eventIds[k])
  }

  predicate EventFits(e: Event) {
    EventKey(e.id).Some? ==> e.id.Observed? && e.questionId == e.id.question
  }

  /** An event of the question, held or brought, that can answer at the head of this ledger. */
  predicate Bears(l: State, s: Snapshot, id: QuestionId, ref: EventId) {
    || Eligible(l, id, ref)
    || (ref.Observed? && exists e :: e in s.events && e.id == ref && e.questionId == id && Supports(e, l.head))
  }

  predicate ResolutionFits(l: State, s: Snapshot, r: Resolution) {
    QuestionKey(r.questionId).Some? ==>
      && Proper(r.questionId)
      && (r.status == "answered" ==> r.refs != [] && forall ref :: ref in r.refs ==> Bears(l, s, r.questionId, ref))
  }

  /** A snapshot, entry by entry: own numbered events, events under their own id, answers with bearing evidence. */
  predicate Fits(l: State, s: Snapshot) {
    && (forall q :: q in s.questions ==> QuestionFits(l, s, q))
    && (forall e :: e in s.events ==> EventFits(e))
    && forall r :: r in s.resolutions ==> ResolutionFits(l, s, r)
  }

  /** What the three merge loops leave, entry by entry. */
  lemma IngestEntries(l: State, s: Snapshot)
    ensures var a, m := Accepted(l, s), Ingest(l, s);
            && (forall k :: k in l.questions ==> k in m.questions && m.questions[k] == l.questions[k])
            && (forall k :: k in m.questions ==>
                  (k in l.questions && m.questions[k] == l.questions[k])
                  || (m.questions[k] in a.questions && QuestionKey(m.questions[k].id) == Some(k)))
            && (forall q :: q in a.questions && QuestionKey(q.id).Some? ==>
                  QuestionKey(q.id).value in m.questions && m.questions[QuestionKey(q.id).value] == q)
  {
    MergedEntries(l.questions, Accepted(l, s).questions, KeyOfQuestion);
    TakenAreFiled(l.questions, s.questions, KeyOfQuestion);
  }

  lemma IngestEvents(l: State, s: Snapshot)
    ensures var a, m := Accepted(l, s), Ingest(l, s);
            && EventsKept(l, m)
            && (forall k :: k in m.events ==>
                  (k in l.events && m.events[k] == l.events[k])
                  || (m.events[k] in a.events && EventKey(m.events[k].id) == Some(k)))
            && (forall e :: e in a.events && EventKey(e.id).Some? ==>
                  EventKey(e.id).value in m.events && m.events[EventKey(e.id).value] == e)
  {
    MergedEntries(l.events, Accepted(l, s).events, KeyOfEvent);
    TakenAreFiled(l.events, s.events, KeyOfEvent);
  }

  lemma IngestResolutions(l: State, s: Snapshot)
    ensures var a, m := Accepted(l, s), Ingest(l, s);
            && (forall k :: k in l.resolutions ==> k in m.resolutions && m.resolutions[k] == l.resolutions[k])
            && (forall k :: k in m.resolutions ==>
                  (k in l.resolutions && m.resolutions[k] == l.resolutions[k])
                  || (m.resolutions[k] in a.resolutions && QuestionKey(m.resolutions[k].questionId) == Some(k)))
            && (forall r :: r in a.resolutions && QuestionKey(r.questionId).Some? ==>
                  QuestionKey(r.questionId).value in m.resolutions && m.resolutions[QuestionKey(r.questionId).value] == r)
  {
    MergedEntries(l.resolutions, Accepted(l, s).resolutions, KeyOfResolution);
    TakenAreFiled(l.resolutions, s.resolutions, KeyOfResolution);
  }

  ghost predicate EventsFit(s: Snapshot) {
    forall e :: e in s.events ==> EventFits(e)
  }

  lemma EventsOkExactly(l: State, s: Snapshot)
    requires forall ref :: ref in l.events ==> EventOk(l.events[ref], ref)
    ensures var m := Ingest(l, s);
            (forall ref :: ref in m.events ==> EventOk(m.events[ref], ref)) <==> EventsFit(Accepted(l, s))
  {
    hide Ingest, Accepted, Normalized;
    IngestEvents(l, s);
    var a, m := Accepted(l, s), Ingest(l, s);
    if forall ref :: ref in m.events ==> EventOk(m.events[ref], ref) {
      forall e | e in a.events
        ensures EventFits(e)
      {
        if EventKey(e.id).Some? { assert EventOk(m.events[EventKey(e.id).value], EventKey(e.id).value); }
      }
    }
  }

  /** Holding and bearing evidence, read off the ledger after the merge. */
  lemma BearsExactly(l: State, s: Snapshot, id: QuestionId, ref: EventId)
    requires forall ref :: ref in Ingest(l, s).events ==> EventOk(Ingest(l, s).events[ref], ref)
    requires EventsFit(Accepted(l, s))
    ensures ref.Observed? ==> (ref in Ingest(l, s).events <==> Holds(l, Accepted(l, s), ref))
    ensures Eligible(Ingest(l, s), id, ref) <==> Bears(l, Accepted(l, s), id, ref)
  {
    hide Ingest, Accepted, Normalized, Supports;
    IngestEvents(l, s);
    var a, m := Accepted(l, s), Ingest(l, s);
    if Eligible(m, id, ref) && !Eligible(l, id, ref) {
      assert m.events[ref] in a.events && m.events[ref].id == ref;
    }
    if ref.Observed? && exists e :: e in a.events && e.id == ref && e.questionId == id && Supports(e, l.head) {
      var e :| e in a.events && e.id == ref && e.questionId == id && Supports(e, l.head);
      assert m.events[ref] == e;
    }
  }

  lemma QuestionsOkExactly(l: State, s: Snapshot)
    requires LedgerOk(l) && EventsFit(Accepted(l, s))
    requires forall ref :: ref in Ingest(l, s).events ==> EventOk(Ingest(l, s).events[ref], ref)
    ensures var a, m := Accepted(l, s), Ingest(l, s);
            (forall id :: id in m.questions ==> QuestionOk(m, id)) <==> forall q :: q in a.questions ==> QuestionFits(l, a, q)
  {
    hide Ingest, Accepted, Normalized, Supports, AnswersOk, Holds, QuestionOk;
    IngestEntries(l, s);
    IngestEvents(l, s);
    var a, m := Accepted(l, s), Ingest(l, s);
    forall q | q in a.questions && QuestionKey(q.id).Some?
      ensures QuestionFits(l, a, q) <==> QuestionOk(m, QuestionKey(q.id).value)
    {
      FitsMeansOk(l, s, q);
    }
    forall id | id in l.questions
      ensures QuestionOk(m, id)
    {
      QuestionStaysOk(l, m, id);
    }
  }

  lemma QuestionStaysOk(l: State, m: State, id: QuestionId)
    requires id in l.questions && id in m.questions && m.questions[id] == l.questions[id] && QuestionOk(l, id)
    requires EventsKept(l, m)
    ensures QuestionOk(m, id)
  {
  }

  lemma FitsMeansOk(l: State, s: Snapshot, q: Question)
    requires q in Accepted(l, s).questions && QuestionKey(q.id).Some? && EventsFit(Accepted(l, s))
    requires forall ref :: ref in Ingest(l, s).events ==> EventOk(Ingest(l, s).events[ref], ref)
    ensures QuestionKey(q.id).value in Ingest(l, s).questions
    ensures QuestionFits(l, Accepted(l, s), q) <==> QuestionOk(Ingest(l, s), QuestionKey(q.id).value)
  {
    hide Ingest, Accepted, Normalized, Supports, Holds;
    IngestEntries(l, s);
    forall k | 0 <= k < |q.eventIds| && q.eventIds[k].Observed?
      ensures q.eventIds[k] in Ingest(l, s).events <==> Holds(l, Accepted(l, s), q.eventIds[k])
    {
      BearsExactly(l, s, q.id, q.eventIds[k]);
    }
  }

  lemma ResolutionsOkExactly(l: State, s: Snapshot)
    requires LedgerOk(l) && EventsFit(Accepted(l, s))
    requires forall ref :: ref in Ingest(l, s).events ==> EventOk(Ingest(l, s).events[ref], ref)
    ensures var a, m := Accepted(l, s), Ingest(l, s);
            AnswersOk(m) <==> forall r :: r in a.resolutions ==> ResolutionFits(l, a, r)
  {
    hide Ingest, Accepted, Normalized, Supports, QuestionOk, Backed, ResolutionFits;
    IngestResolutions(l, s);
    IngestEvents(l, s);
    var a, m := Accepted(l, s), Ingest(l, s);
    forall r | r in a.resolutions
      ensures QuestionKey(r.questionId).None? ==> ResolutionFits(l, a, r)
      ensures QuestionKey(r.questionId).Some? ==>
                (ResolutionFits(l, a, r) <==> r.questionId == QuestionKey(r.questionId).value && Backed(m, r))
    {
      ResolutionFitsMeansOk(l, s, r);
    }
    forall id | id in l.resolutions
      ensures m.resolutions[id].questionId == id && Backed(m, m.resolutions[id])
    {
      BackedStays(l, m, l.resolutions[id]);
    }
  }

  lemma ResolutionFitsMeansOk(l: State, s: Snapshot, r: Resolution)
    requires EventsFit(Accepted(l, s))
    requires forall ref :: ref in Ingest(l, s).events ==> EventOk(Ingest(l, s).events[ref], ref)
    ensures QuestionKey(r.questionId).None? ==> ResolutionFits(l, Accepted(l, s), r)
    ensures QuestionKey(r.questionId).Some? ==>
              (ResolutionFits(l, Accepted(l, s), r)
               <==> r.questionId == QuestionKey(r.questionId).value && Backed(Ingest(l, s), r))
  {
    hide Ingest, Accepted, Normalized, Supports, Eligible, Bears;
    forall ref | ref in r.refs
      ensures Eligible(Ingest(l, s), r.questionId, ref) <==> Bears(l, Accepted(l, s), r.questionId, ref)
    {
      BearsExactly(l, s, r.questionId, ref);
    }
  }

  /** Ingesting keeps every answer backed exactly when what it merges fits, entry by entry; it never rewrites an event. */
  lemma IngestKeepsOkExactly(l: State, s: Snapshot)
    requires LedgerOk(l)
    ensures EventsKept(l, Ingest(l, s))
    ensures LedgerOk(Ingest(l, s)) <==> Fits(l, Accepted(l, s))
  {
    hide Ingest, Accepted, QuestionOk, EventOk, AnswersOk, QuestionFits, EventFits, ResolutionFits, EventsKept;
    IngestEvents(l, s);
    EventsOkExactly(l, s);
    if EventsFit(Accepted(l, s)) {
      QuestionsOkExactly(l, s);
      ResolutionsOkExactly(l, s);
    }
  }

  // ----------------------------------------------------------------- own snapshots

  ghost predicate ProperNames(l: State) {
    forall id :: id in l.resolutions ==> Proper(id)
  }

  /**
    Ingesting a ledger's own snapshot into an empty ledger rebuilds it - exactly when no caller has
    resolved a blank or unnormalized question name.
   */
  lemma SnapshotRebuilds(l: State, s: Snapshot, head: string)
    requires LedgerOk(l) && Describes(s, EnsureTerminal(l))
    ensures Accepted(Empty(head), s) == s && Ingest(Empty(head), s) == EnsureTerminal(l).(head := head)
            <==> ProperNames(EnsureTerminal(l))
  {
    hide Supports, Normalized, ResolutionFor, Cut, Merged, QuestionOk, AnswersOk;
    var m := EnsureTerminal(l);
    EnsureKeepsOk(l);
    MergeRebuilds(m.questions, s.questions, KeyOfQuestion);
    MergeRebuilds(m.events, s.events, KeyOfEvent);
    MergeRebuilds(m.resolutions, s.resolutions, KeyOfResolution);
    IdentitiesAreKeys(m);
    ProperAreKeys(m);
  }

  lemma IdentitiesAreKeys(m: State)
    requires LedgerOk(m)
    ensures forall q :: q in m.questions ==> KeyOfQuestion(m.questions[q]) == Some(q)
    ensures forall e :: e in m.events ==> KeyOfEvent(m.events[e]) == Some(e)
  {
    hide Normalized, AnswersOk;
    forall q | q in m.questions
      ensures KeyOfQuestion(m.questions[q]) == Some(q)
    {
      assert QuestionOk(m, q);
    }
  }

  lemma ProperAreKeys(m: State)
    requires LedgerOk(m)
    ensures ProperNames(m) <==> forall r :: r in m.resolutions ==> KeyOfResolution(m.resolutions[r]) == Some(r)
  {
    hide Normalized, QuestionOk, EventOk, Backed;
    forall r | r in m.resolutions
      ensures Proper(r) <==> KeyOfResolution(m.resolutions[r]) == Some(r)
    {
      assert m.resolutions[r].questionId == r;
    }
  }

  ghost predicate AnswersBear(l: State, head: string) {
    forall id, ref :: id in l.resolutions && l.resolutions[id].status == "answered" && ref in l.resolutions[id].refs ==>
                        ref in l.events && Supports(l.events[ref], head)
  }

  /**
    A properly named own snapshot keeps an empty ledger of some head valid exactly when the evidence of
    its answers bears at that head too; the ledger's own head always qualifies.
   */
  lemma OwnSnapshotExactly(l: State, s: Snapshot, head: string)
    requires LedgerOk(l) && Describes(s, EnsureTerminal(l)) && ProperNames(EnsureTerminal(l))
    ensures Accepted(Empty(head), s) == s
    ensures LedgerOk(Ingest(Empty(head), s)) <==> AnswersBear(l, head)
    ensures head == l.head ==> AnswersBear(l, head)
    ensures Orderly(l) ==> Orderly(Ingest(Empty(head), s))
  {
    hide Supports, Normalized, ResolutionFor, Accepted, Ingest;
    SnapshotRebuilds(l, s, head);
    EnsureKeepsOk(l);
    var m := EnsureTerminal(l);
    HeadChange(m, head);
    EnsureAddsNoAnswer(l, head);
    if Orderly(l) {
      forall ref | ref in m.events
        ensures EventListed(m.(head := head), ref)
      {
        assert EventListed(l, ref);
      }
    }
    if head == l.head { OwnHeadBears(l); }
  }

  lemma OwnHeadBears(l: State)
    requires LedgerOk(l)
    ensures AnswersBear(l, l.head)
  {
    hide Supports, QuestionOk, EventOk;
    forall id, ref | id in l.resolutions && l.resolutions[id].status == "answered" && ref in l.resolutions[id].refs
      ensures ref in l.events && Supports(l.events[ref], l.head)
    {
      assert Backed(l, l.resolutions[id]);
    }
  }

  lemma HeadChange(m: State, head: string)
    requires LedgerOk(m)
    ensures LedgerOk(m.(head := head)) <==> AnswersBear(m, head)
  {
    hide Supports;
    var n := m.(head := head);
    forall q | q in n.questions
      ensures QuestionOk(n, q)
    {
      assert QuestionOk(m, q);
    }
    if LedgerOk(n) { OwnHeadBears(n); }
    if AnswersBear(m, head) {
      forall id | id in n.resolutions
        ensures Backed(n, n.resolutions[id])
      {
        assert Backed(m, m.resolutions[id]);
      }
    }
  }

  lemma EnsureAddsNoAnswer(l: State, head: string)
    ensures AnswersBear(EnsureTerminal(l), head) <==> AnswersBear(l, head)
  {
    hide Supports, ResolutionFor;
    var m := EnsureTerminal(l);
    forall id | id in m.resolutions
      ensures id !in l.resolutions ==> m.resolutions[id].status == "unknown"
    {
      if id !in l.resolutions { UnresolvedIsUnknown(l, id); }
    }
    if AnswersBear(m, head) {
      forall id, ref | id in l.resolutions && l.resolutions[id].status == "answered" && ref in l.resolutions[id].refs
        ensures ref in l.events && Supports(l.events[ref], head)
      {
        assert m.resolutions[id] == l.resolutions[id];
      }
    }
  }

  /** Under another declared head an answer of the snapshot is no longer backed. */
  lemma OtherHeadBreaks(l: State, s: Snapshot, head: string, id: QuestionId)
    requires LedgerOk(l) && Describes(s, EnsureTerminal(l)) && ProperNames(EnsureTerminal(l))
    requires id in l.resolutions && l.resolutions[id].status == "answered"
    requires Normalized(head) != "" && Normalized(l.head) != "" && Lower(Normalized(head)) != Lower(Normalized(l.head))
    ensures !LedgerOk(Ingest(Empty(head), s))
  {
    hide Supports, Normalized, Accepted, Ingest, ResolutionFor;
    OwnSnapshotExactly(l, s, head);
    OwnHeadBears(l);
    assert Backed(l, l.resolutions[id]);
    var ref := l.resolutions[id].refs[0];
    if AnswersBear(l, head) { SupportsOneHead(l.events[ref], head, l.head); }
  }

  /** A snapshot may bring an answer that cites nothing: ingesting it breaks any ledger without that resolution. */
  lemma BareAnswerBreaks(l: State, r: Resolution)
    requires LedgerOk(l) && Proper(r.questionId) && r.status == "answered" && r.refs == []
    requires r.questionId !in l.resolutions
    ensures !LedgerOk(Ingest(l, Snapshot([], [], [r])))
  {
    hide Normalized, Supports;
    var s := Snapshot([], [], [r]);
    assert s.resolutions[..0] == [];
    assert Cut(l.resolutions, [], KeyOfResolution) == [];
    assert Merged(l.resolutions, [], KeyOfResolution) == l.resolutions;
    assert Cut(l.resolutions, s.resolutions, KeyOfResolution) == s.resolutions;
    assert r in s.resolutions;
    IngestKeepsOkExactly(l, s);
    assert !ResolutionFits(l, s, r);
  }
}
