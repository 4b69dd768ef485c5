/** The evidence ledger as an object, changed in place by its methods. */
module EvidenceStore {
  import opened Wrappers
  import opened Strings
  import opened Evidence
  import opened EvidenceSnapshots
  import opened EvidenceRuns

  class EvidenceLedger {
    const head: string
    var questions: map<QuestionId, Question>
    var events: map<EventId, Event>
    var resolutions: map<QuestionId, Resolution>

    ghost function Contents(): State
      reads this
    {
      State(head, questions, events, resolutions)
    }

    ghost predicate Valid()
      reads this
    {
      LedgerOk(Contents())
    }

    constructor (head: string)
      ensures this.head == head && Contents() == Empty(head) && Valid()
    {
      this.head := head;
      questions, events, resolutions := map[], map[], map[];
    }

    method RegisterQuestion(text: string, tool: string, args: string, lifecycle: string) returns (id: QuestionId)
      modifies this
      ensures Contents() == Register(old(Contents()), text, tool, args, lifecycle)
      ensures id == AskedId(text, tool, args) && id in questions
      ensures old(Valid()) ==> Valid()
    {
      hide LedgerOk, Normalized;
      var display := QuestionText(text, tool);
      id := Asked(Lower(display), tool, args);
      if id !in questions {
        questions := questions[id := Question(id, display, tool, args, if Lifecycle(lifecycle) then lifecycle else "planned", [])];
      } else if Lifecycle(lifecycle) {
        questions := questions[id := questions[id].(lifecycle := lifecycle)];
      }
      if old(Valid()) { QuestionOpKeepsOk(old(Contents()), DoRegister(text, tool, args, lifecycle)); }
    }

    method RegisterUnresolvedGap(slot: string, text: string, howToCheck: string) returns (id: Option<QuestionId>)
      modifies this
      ensures id.None? <==> RegisterGap(old(Contents()), slot, text, howToCheck).None?
      ensures if id.None? then Contents() == old(Contents())
              else RegisterGap(old(Contents()), slot, text, howToCheck) == Some(Contents()) && id.value in questions
      ensures old(Valid()) ==> Valid()
    {
      hide LedgerOk, Normalized;
      var name := Normalized(slot);
      if name == "" { return None; }
      id := Some(Gap(name));
      if Gap(name) !in questions {
        var display := if Normalized(text) != "" then Normalized(text) else "Manual verification.";
        questions := questions[Gap(name) := Question(Gap(name), display, "manual_verification", Normalized(howToCheck),
                                                     "derived_gap", [])];
      }
      if old(Valid()) { QuestionOpKeepsOk(old(Contents()), DoRegisterGap(slot, text, howToCheck)); }
    }

    /** Stores the event; the answers stay backed exactly when none of them cites an event this one replaces. */
    method RecordEvent(id: QuestionId, o: Observation) returns (ref: EventId)
      modifies this
      ensures Contents() == Record(old(Contents()), id, o) && ref == EventIdFor(old(Contents()), id, o) && ref in events
      ensures old(Valid()) ==> (Valid() <==> LeavesAnswers(old(Contents()), id, o))
      ensures old(Valid()) && old(Orderly(Contents())) && id in old(questions) ==> Valid() && ref !in old(events)
    {
      hide LedgerOk, Orderly, Normalized, Supports, LeavesAnswers, Harmless;
      var attempt := if id in questions then |questions[id].eventIds| else 0;
      ref := Observed(id, o.tool, o.args, attempt);
      var lineage := o.lineage[..if |o.lineage| < 20 then |o.lineage| else 20];
      events := events[ref := Event(ref, id, o.tool, o.args, if o.outcome != "" then o.outcome else "unknown",
                                    Normalized(o.sourceRef), Normalized(o.reread), lineage)];
      if id in questions {
        var q := questions[id];
        var ids := if ref in q.eventIds then q.eventIds else q.eventIds + [ref];
        questions := questions[id := q.(eventIds := ids, lifecycle := "executed")];
      }
      if old(Valid()) {
        RecordKeepsOkExactly(old(Contents()), id, o);
        if old(Orderly(Contents())) && id in old(questions) {
          RecordIsNew(old(Contents()), id, o);
          RecordKeepsOk(old(Contents()), id, o);
        }
      }
    }

    method SupportingEventIds(id: QuestionId) returns (ids: seq<EventId>)
      ensures ids == OwnSupporting(Contents(), id)
    {
      hide Supports;
      ids := [];
      if id !in questions { return; }
      var listed := questions[id].eventIds;
      for n := 0 to |listed|
        invariant ids == Supporting(Contents(), listed[..n])
      {
        assert listed[..n + 1][..n] == listed[..n];
        if listed[n] in events && Supports(events[listed[n]], head) { ids := ids + [listed[n]]; }
      }
      assert listed[..|listed|] == listed;
    }

    method ValidRefs(id: QuestionId, requested: seq<EventId>) returns (refs: seq<EventId>)
      ensures refs == Keep(Contents(), id, requested)
    {
      hide Supports;
      refs := [];
      for n := 0 to |requested|
        invariant refs == Keep(Contents(), id, requested[..n])
      {
        assert requested[..n + 1][..n] == requested[..n];
        var ref := requested[n];
        if ref in events && events[ref].questionId == id && Supports(events[ref], head) { refs := refs + [ref]; }
      }
      assert requested[..|requested|] == requested;
    }

    method ResolveQuestion(id: QuestionId, c: Claim) returns (r: Resolution)
      modifies this`resolutions
      ensures Contents() == Resolve(old(Contents()), id, c) && resolutions[id] == r
      ensures old(Valid()) ==> Valid() && Backed(Contents(), r)
    {
      hide LedgerOk, Normalized, Supports, Keep, OwnSupporting;
      var requested := if c.refs.Some? then FirstSeen(c.refs.value) else [];
      var refs := ValidRefs(id, requested);
      var invalid := c.refs.Some? && (requested == [] || |refs| != |requested|);
      var status := if Status(c.status) then c.status else "unknown";
      if status == "answered" && c.refs.None? {
        var own := SupportingEventIds(id);
        if |own| == 1 { refs := own; }
      }
      if status == "answered" && (refs == [] || invalid) {
        r := Resolution(id, "unknown", [], "", "", "", []);
        NothingIsNormalized();
      } else {
        r := Resolution(id, status, refs, Normalized(c.conclusion), Normalized(c.howToCheck),
                        Normalized(c.provenanceKind), FirstSeen(NonEmptyTexts(c.provenanceRefs)));
      }
      resolutions := resolutions[id := r];
      if old(Valid()) {
        ResolveKeepsOk(old(Contents()), id, c);
        AnsweredExactly(old(Contents()), id, c);
        BackedStays(old(Contents()), Contents(), r);
      }
    }

    method EnsureTerminalResolutions()
      modifies this`resolutions
      ensures Contents() == EnsureTerminal(old(Contents()))
      ensures old(Valid()) ==> Valid()
    {
      hide LedgerOk, ResolutionFor, Finished;
      var todo := questions.Keys;
      ghost var before := Contents();
      FinishedNone(before);
      while todo != {}
        invariant todo <= questions.Keys && questions == before.questions && events == before.events
        invariant Finished(before, questions.Keys - todo, resolutions)
        decreases |todo|
      {
        var id :| id in todo;
        FinishedStep(before, questions.Keys - todo, resolutions, id);
        if id !in resolutions {
          ResolutionIgnoresResolutions(before, Contents(), id, Unresolved);
          var r := ResolveQuestion(id, Unresolved);
        }
        assert questions.Keys - (todo - {id}) == (questions.Keys - todo) + {id};
        todo := todo - {id};
      }
      assert questions.Keys - todo == questions.Keys;
      FinishedAll(before, resolutions);
      if old(Valid()) { EnsureKeepsOk(before); }
    }

    method ToMeta() returns (s: Snapshot)
      modifies this`resolutions
      ensures Contents() == EnsureTerminal(old(Contents())) && Describes(s, Contents())
      ensures old(Valid()) ==> Valid()
    {
      EnsureTerminalResolutions();
      var q := ValuesOf(questions);
      var e := ValuesOf(events);
      var r := ValuesOf(resolutions);
      s := Snapshot(q, e, r);
    }

    /**
      Merges a snapshot up to its first conflict. Entries already present always survive, and the ledger
      stays valid exactly when what was merged fits.
     */
    method IngestMeta(s: Snapshot) returns (ok: bool)
      modifies this
      ensures Contents() == Ingest(old(Contents()), s) && (ok <==> Accepted(old(Contents()), s) == s)
      ensures old(Valid()) ==> (Valid() <==> Fits(old(Contents()), Accepted(old(Contents()), s)))
    {
      hide LedgerOk, Fits, Cut, Merged;
      ghost var before := Contents();
      var more, q, e, r;
      ok, q := MergeInto(questions, s.questions, KeyOfQuestion);
      questions := q;
      NothingMerged(before);
      if ok {
        more, e := MergeInto(events, s.events, KeyOfEvent);
        ok, events := more, e;
        if ok {
          more, r := MergeInto(resolutions, s.resolutions, KeyOfResolution);
          ok, resolutions := more, r;
        }
      }
      if old(Valid()) { IngestKeepsOkExactly(before, s); }
    }
  }

  lemma NothingMerged(l: State)
    ensures Merged(l.events, [], KeyOfEvent) == l.events
    ensures Merged(l.resolutions, [], KeyOfResolution) == l.resolutions
  {
  }

  /** The resolutions once the questions in done have been looked at. */
  ghost predicate Finished(l: State, done: set<QuestionId>, resolutions: map<QuestionId, Resolution>) {
    && resolutions.Keys == l.resolutions.Keys + done
    && forall id :: id in resolutions ==>
                      resolutions[id] == if id in l.resolutions then l.resolutions[id] else ResolutionFor(l, id, Unresolved)
  }

  lemma FinishedNone(l: State)
    ensures Finished(l, l.questions.Keys - l.questions.Keys, l.resolutions)
  {
    hide ResolutionFor;
  }

  lemma FinishedAll(l: State, resolutions: map<QuestionId, Resolution>)
    requires Finished(l, l.questions.Keys, resolutions)
    ensures l.(resolutions := resolutions) == EnsureTerminal(l)
  {
    hide ResolutionFor;
    assert resolutions == EnsureTerminal(l).resolutions;
  }

  lemma FinishedStep(l: State, done: set<QuestionId>, resolutions: map<QuestionId, Resolution>, id: QuestionId)
    requires Finished(l, done, resolutions)
    ensures if id in resolutions then Finished(l, done + {id}, resolutions)
            else Finished(l, done + {id}, resolutions[id := ResolutionFor(l, id, Unresolved)])
  {
    hide ResolutionFor;
  }

  lemma NothingIsNormalized()
    ensures Normalized("") == ""
  {
  }

  lemma ResolutionIgnoresResolutions(l: State, m: State, id: QuestionId, c: Claim)
    requires m == l.(resolutions := m.resolutions)
    ensures ResolutionFor(m, id, c) == ResolutionFor(l, id, c)
  {
    hide Supports, Normalized;
    KeepIgnoresResolutions(l, m, id, if c.refs.Some? then FirstSeen(c.refs.value) else []);
    if id in l.questions { SupportingIgnoresResolutions(l, m, l.questions[id].eventIds); }
  }

  lemma {:induction false} KeepIgnoresResolutions(l: State, m: State, id: QuestionId, refs: seq<EventId>)
    requires m == l.(resolutions := m.resolutions)
    ensures Keep(m, id, refs) == Keep(l, id, refs)
  {
    hide Supports;
    if refs != [] { KeepIgnoresResolutions(l, m, id, refs[..|refs| - 1]); }
  }

  lemma {:induction false} SupportingIgnoresResolutions(l: State, m: State, ids: seq<EventId>)
    requires m == l.(resolutions := m.resolutions)
    ensures Supporting(m, ids) == Supporting(l, ids)
  {
    hide Supports;
    if ids != [] { SupportingIgnoresResolutions(l, m, ids[..|ids| - 1]); }
  }

  method ValuesOf<K(!new, ==), V(!new, ==)>(m: map<K, V>) returns (values: seq<V>)
    ensures Lists(values, m)
  {
    values := [];
    var todo := m.Keys;
    while todo != {}
      invariant todo <= m.Keys
      invariant forall v :: v in values <==> exists k :: k in m && k !in todo && m[k] == v
      decreases |todo|
    {
      var k :| k in todo;
      values := values + [m[k]];
      todo := todo - {k};
    }
  }

  method MergeInto<K(!new, ==), V(==)>(destination: map<K, V>, values: seq<V>, key: V -> Option<K>)
    returns (ok: bool, merged: map<K, V>)
    ensures ok <==> Cut(destination, values, key) == values
    ensures merged == Merged(destination, Cut(destination, values, key), key)
  {
    hide Cut, Merged;
    NothingCut(destination, key);
    ok, merged := true, destination;
    for n := 0 to |values|
      invariant Cut(destination, values[..n], key) == values[..n] && Merged(destination, values[..n], key) == merged
    {
      CutExtends(destination, values[..n], values[n], key);
      assert values[..n + 1] == values[..n] + [values[n]];
      var identity := key(values[n]);
      if identity.Some? {
        if identity.value !in merged {
          merged := merged[identity.value := values[n]];
        } else if merged[identity.value] != values[n] {
          CutStays(destination, values, key, n + 1);
          return false, merged;
        }
      }
    }
    assert values[..|values|] == values;
  }

  lemma NothingCut<K, V>(destination: map<K, V>, key: V -> Option<K>)
    ensures Cut(destination, [], key) == [] && Merged(destination, [], key) == destination
  {
  }

  lemma CutExtends<K, V>(destination: map<K, V>, front: seq<V>, v: V, key: V -> Option<K>)
    requires Cut(destination, front, key) == front
    ensures var m := Merged(destination, front, key);
            && Cut(destination, front + [v], key) == (if Conflicts(m, v, key) then front else front + [v])
            && (!Conflicts(m, v, key) ==>
                  Merged(destination, front + [v], key)
                  == if key(v).None? || key(v).value in m then m else m[key(v).value := v])
  {
    hide Cut, Merged, Conflicts;
    CutLast(destination, front + [v], key);
    MergedLast(destination, front + [v], key);
    assert (front + [v])[..|front|] == front;
  }

  lemma {:induction false} CutStays<K, V>(destination: map<K, V>, values: seq<V>, key: V -> Option<K>, n: nat)
    requires n <= |values| && Cut(destination, values[..n], key) != values[..n]
    ensures Cut(destination, values, key) == Cut(destination, values[..n], key) != values
    decreases |values|
  {
    if n == |values| {
      assert values[..n] == values;
    } else {
      assert values[..|values| - 1][..n] == values[..n];
      CutStays(destination, values[..|values| - 1], key, n);
    }
  }
}
