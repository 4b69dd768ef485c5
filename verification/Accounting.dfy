/**
  The pipeline's provider ledger: one row a dispatch, deduplicated, ordered, split into winning and
  discarded attempts, and summed.

  SHA-256 identities are modelled by the values they digest; `written` is how an identity is spelled,
  which only the last tie-break of the order looks at.
 */
module Accounting {
  import opened Wrappers
  import opened Strings
  import opened UsageTree
  import Ordering

  type Written = Id -> string

  datatype Id =
    | Text(s: string)
    | OperationOf(coordinates: Coordinates)
    | CallOf(operation: Id, transport: int)

  const NO_ID := Text("")

  datatype Coordinates = Coordinates(
    run: string, head: string, pipelinePhase: string, pipelineAttempt: int, phase: string, callIndex: int)

  datatype Call = Call(
    schema: int, callId: Id, operationId: Id, run: string, head: string,
    pipelinePhase: string, pipelineAttempt: int, phase: string, callIndex: int, round: int, attempt: int,
    transportIndex: int, dispatchCount: int, attemptCount: int,
    model: string, logicalModel: string, billedModel: string, elapsed: int, finishReason: string,
    status: string, usage: Value, usageState: string, usageErrors: set<UsageError>)
  {
    function Where(): Coordinates {
      Coordinates(run, head, pipelinePhase, pipelineAttempt, phase, callIndex)
    }

    predicate Dispatching() {
      status == "dispatching"
    }
  }

  // ---------------------------------------------------------------- phase names

  /** `canonical_provider_phase`: two old names map to the route vocabulary. */
  function CanonicalPhase(phase: string): string {
    var stripped := Strip(phase);
    if stripped == "" then "unknown"
    else if stripped == "pr_analyzer" then "route"
    else if stripped == "pr_analyzer_adjudication" then "route_adjudication"
    else stripped
  }

  lemma CanonicalIsStable(phase: string)
    ensures CanonicalPhase(CanonicalPhase(phase)) == CanonicalPhase(phase)
  {
    StripIsStable(phase);
    assert Strip("unknown") == "unknown" && Strip("route") == "route";
    assert Strip("route_adjudication") == "route_adjudication";
  }

  // ---------------------------------------------------------------- deduplication

  datatype Identity =
    | ByCall(id: Id)
    | Legacy(phase: string, model: string, logicalModel: string, billedModel: string, attempt: int,
             pipelinePhase: string, pipelineAttempt: int, callIndex: int, elapsed: int, finishReason: string,
             usage: Value)

  function IdentityOf(c: Call): Identity {
    if c.callId != NO_ID then ByCall(c.callId)
    else Legacy(c.phase, c.model, c.logicalModel, c.billedModel, c.attempt, c.pipelinePhase, c.pipelineAttempt,
                c.callIndex, c.elapsed, c.finishReason, c.usage)
  }

  function Canonical(c: Call): Call {
    c.(phase := CanonicalPhase(c.phase))
  }

  function Find(rows: seq<Call>, id: Identity): (r: Option<nat>)
    ensures r.Some? ==> r.value < |rows| && IdentityOf(rows[r.value]) == id
    ensures r.None? ==> forall i :: 0 <= i < |rows| ==> IdentityOf(rows[i]) != id
  {
    if rows == [] then None
    else if IdentityOf(rows[|rows| - 1]) == id then Some(|rows| - 1)
    else Find(rows[..|rows| - 1], id)
  }

  /** One more row: a repeated identity is dropped, unless it settles a dispatching skeleton. */
  function Retain(rows: seq<Call>, c: Call): seq<Call> {
    var at := Find(rows, IdentityOf(c));
    if at.None? then rows + [c]
    else if rows[at.value].Dispatching() && !c.Dispatching() then rows[at.value := c]
    else rows
  }

  /** The rows kept of a ledger, in the order in which their identities first appear. */
  function Unique(rows: seq<Call>): seq<Call> {
    if rows == [] then [] else Retain(Unique(rows[..|rows| - 1]), rows[|rows| - 1])
  }

  function CanonicalAll(phases: seq<Call>): seq<Call> {
    seq(|phases|, i requires 0 <= i < |phases| => Canonical(phases[i]))
  }

  function Dedupe(phases: seq<Call>): seq<Call> {
    Unique(CanonicalAll(phases))
  }

  ghost predicate Distinct(rows: seq<Call>) {
    forall i, j :: 0 <= i < j < |rows| ==> IdentityOf(rows[i]) != IdentityOf(rows[j])
  }

  lemma {:induction false} FindSame(a: seq<Call>, b: seq<Call>, id: Identity)
    requires |a| == |b| && forall i :: 0 <= i < |a| ==> IdentityOf(a[i]) == IdentityOf(b[i])
    ensures Find(a, id) == Find(b, id)
  {
    hide IdentityOf;
    if a != [] { FindSame(a[..|a| - 1], b[..|b| - 1], id); }
  }

  lemma FindAppended(rows: seq<Call>, c: Call, id: Identity)
    ensures Find(rows + [c], id) == if id == IdentityOf(c) then Some(|rows|) else Find(rows, id)
  {
    hide IdentityOf;
    assert (rows + [c])[..|rows|] == rows;
  }

  method DedupeModelPhases(phases: seq<Call>) returns (retained: seq<Call>)
    ensures retained == Dedupe(phases)
  {
    hide IdentityOf, Canonical, Find;
    retained := [];
    var index: map<Identity, nat> := map[];
    ghost var rows := CanonicalAll(phases);
    forall id { NothingFound(id); }
    for n := 0 to |phases|
      invariant retained == Unique(rows[..n])
      invariant forall id :: Find(retained, id) == if id in index then Some(index[id]) else None
    {
      assert rows[..n + 1][..n] == rows[..n];
      var phase := Canonical(phases[n]);
      var identity := IdentityOf(phase);
      ghost var before := retained;
      if identity !in index {
        index := index[identity := |retained|];
        retained := retained + [phase];
        forall id { FindAppended(before, phase, id); }
      } else {
        var existing := retained[index[identity]];
        if existing.Dispatching() && !phase.Dispatching() {
          retained := retained[index[identity] := phase];
          forall id { FindSame(before, retained, id); }
        }
      }
    }
    assert rows[..|phases|] == rows;
  }

  lemma NothingFound(id: Identity)
    ensures Find([], id) == None
  {
  }

  /**
    The row that stands for its identity: the first terminal one, or the first of all while no terminal
    one exists.
   */
  ghost predicate Stands(rows: seq<Call>, i: nat)
    requires i < |rows|
  {
    if rows[i].Dispatching() then
      && (forall j :: 0 <= j < |rows| && IdentityOf(rows[j]) == IdentityOf(rows[i]) ==> rows[j].Dispatching())
      && (forall j :: 0 <= j < i ==> IdentityOf(rows[j]) != IdentityOf(rows[i]))
    else forall j :: 0 <= j < i && IdentityOf(rows[j]) == IdentityOf(rows[i]) ==> rows[j].Dispatching()
  }

  ghost predicate StandsFor(rows: seq<Call>, row: Call) {
    exists i :: 0 <= i < |rows| && row == rows[i] && Stands(rows, i)
  }

  /** Each identity keeps exactly one row. */
  lemma {:induction false} UniqueIsDistinct(rows: seq<Call>)
    ensures Distinct(Unique(rows))
  {
    hide IdentityOf, Find;
    if rows != [] { UniqueIsDistinct(rows[..|rows| - 1]); }
  }

  ghost function Identities(rows: seq<Call>): set<Identity> {
    set r | r in rows :: IdentityOf(r)
  }

  lemma RetainAddsIdentity(rows: seq<Call>, c: Call)
    ensures Identities(Retain(rows, c)) == Identities(rows) + {IdentityOf(c)}
  {
    hide IdentityOf, Find;
    var more := Retain(rows, c);
    if more == rows + [c] {
      assert forall r :: r in more <==> r in rows || r == c;
    } else if more != rows {
      var at := Find(rows, IdentityOf(c)).value;
      assert forall i :: 0 <= i < |rows| ==> IdentityOf(more[i]) == IdentityOf(rows[i]);
      forall r | r in rows
        ensures IdentityOf(r) in Identities(more)
      {
        var i :| 0 <= i < |rows| && rows[i] == r;
        assert more[i] in more;
      }
    }
  }

  /** Every identity of the input is represented, and no other. */
  lemma {:induction false} IdentitiesAreKept(rows: seq<Call>)
    ensures Identities(Unique(rows)) == Identities(rows)
  {
    hide IdentityOf, Retain;
    if rows != [] {
      var front, last := rows[..|rows| - 1], rows[|rows| - 1];
      IdentitiesAreKept(front);
      RetainAddsIdentity(Unique(front), last);
      assert forall r :: r in rows <==> r in front || r == last;
    }
  }

  /** One more row unseats a dispatching skeleton of its identity exactly when it is terminal. */
  lemma StandsWithOneMore(rows: seq<Call>, i: nat)
    requires i < |rows| - 1
    ensures var n := |rows| - 1;
            Stands(rows, i) <==>
            && Stands(rows[..n], i)
            && !(IdentityOf(rows[i]) == IdentityOf(rows[n]) && rows[i].Dispatching() && !rows[n].Dispatching())
  {
    hide IdentityOf;
    var front := rows[..|rows| - 1];
    assert forall j :: 0 <= j < |front| ==> rows[j] == front[j];
  }

  lemma OneStandsFor(rows: seq<Call>, row: Call)
    requires rows != []
    ensures var n := |rows| - 1;
            StandsFor(rows, row) <==>
            || (row == rows[n] && Stands(rows, n))
            || (StandsFor(rows[..n], row)
                && !(IdentityOf(row) == IdentityOf(rows[n]) && row.Dispatching() && !rows[n].Dispatching()))
  {
    hide IdentityOf, Stands;
    var n := |rows| - 1;
    forall i | 0 <= i < n { StandsWithOneMore(rows, i); }
    if StandsFor(rows[..n], row) {
      var i :| 0 <= i < n && row == rows[..n][i] && Stands(rows[..n], i);
      assert row == rows[i];
    }
    if StandsFor(rows, row) {
      var i :| 0 <= i <= n && row == rows[i] && Stands(rows, i);
      if i < n { assert row == rows[..n][i]; }
    }
  }

  /** Whether the newest row stands, read off the row already kept for its identity. */
  lemma NewestStands(rows: seq<Call>, kept: Call)
    requires rows != [] && StandsFor(rows[..|rows| - 1], kept)
    requires IdentityOf(kept) == IdentityOf(rows[|rows| - 1])
    ensures Stands(rows, |rows| - 1) <==> kept.Dispatching() && !rows[|rows| - 1].Dispatching()
  {
    hide IdentityOf;
    var front := rows[..|rows| - 1];
    var i :| 0 <= i < |front| && kept == front[i] && Stands(front, i);
    assert rows[i] == front[i];
    assert forall j :: 0 <= j < |front| ==> rows[j] == front[j];
  }

  /** The first row of its identity stands. */
  lemma UnseenStands(rows: seq<Call>)
    requires rows != [] && IdentityOf(rows[|rows| - 1]) !in Identities(rows[..|rows| - 1])
    ensures Stands(rows, |rows| - 1)
    ensures forall r :: StandsFor(rows[..|rows| - 1], r) ==> IdentityOf(r) != IdentityOf(rows[|rows| - 1])
  {
    hide IdentityOf;
    var front := rows[..|rows| - 1];
    assert forall j :: 0 <= j < |front| ==> rows[j] == front[j] && IdentityOf(front[j]) in Identities(front);
  }

  lemma RetainMembers(rows: seq<Call>, last: Call, row: Call)
    requires Distinct(rows) && Find(rows, IdentityOf(last)).Some?
    ensures var kept := rows[Find(rows, IdentityOf(last)).value];
            row in Retain(rows, last) <==>
            || (row == last && kept.Dispatching() && !last.Dispatching())
            || (row in rows && !(IdentityOf(row) == IdentityOf(last) && kept.Dispatching() && !last.Dispatching()))
  {
    hide IdentityOf;
    var at := Find(rows, IdentityOf(last)).value;
    if rows[at].Dispatching() && !last.Dispatching() {
      assert last in rows[at := last] by { assert rows[at := last][at] == last; }
      if row in rows && IdentityOf(row) != IdentityOf(last) {
        var i :| 0 <= i < |rows| && rows[i] == row;
        assert rows[at := last][i] == row;
      }
    }
  }

  lemma KeptRowIsOnly(rows: seq<Call>, id: Identity, row: Call)
    requires Distinct(rows) && Find(rows, id).Some? && row in rows && IdentityOf(row) == id
    ensures row == rows[Find(rows, id).value]
  {
    hide IdentityOf;
  }

  /** The retained rows are exactly the rows that stand for their identity. */
  lemma {:induction false} UniqueKeepsStanding(rows: seq<Call>, row: Call)
    ensures row in Unique(rows) <==> StandsFor(rows, row)
  {
    hide IdentityOf, Find, Stands, StandsFor;
    if rows == [] {
      NoneStands(row);
    } else {
      var front, last := rows[..|rows| - 1], rows[|rows| - 1];
      UniqueKeepsStanding(front, row);
      OneStandsFor(rows, row);
      UniqueIsDistinct(front);
      var at := Find(Unique(front), IdentityOf(last));
      if at.Some? {
        var kept := Unique(front)[at.value];
        UniqueKeepsStanding(front, kept);
        NewestStands(rows, kept);
        RetainMembers(Unique(front), last, row);
        if row in Unique(front) && IdentityOf(row) == IdentityOf(last) {
          KeptRowIsOnly(Unique(front), IdentityOf(last), row);
        }
      } else {
        IdentitiesAreKept(front);
        UnseenStands(rows);
      }
    }
  }

  lemma NoneStands(row: Call)
    ensures !StandsFor([], row)
  {
  }

  /** A ledger of distinct canonical rows is left alone. */
  lemma {:induction false} UniqueIsStable(rows: seq<Call>)
    requires Distinct(rows)
    ensures Unique(rows) == rows
  {
    hide IdentityOf;
    if rows != [] {
      var front := rows[..|rows| - 1];
      UniqueIsStable(front);
      assert rows == front + [rows[|rows| - 1]];
    }
  }

  // ------------------------------------------------------------------------ order

  function PhaseRank(phase: string): int {
    if phase == "route" then 0
    else if phase == "route_adjudication" then 1
    else if phase == "pfr_plan" then 2
    else if phase == "pfr_reconcile" then 3
    else if phase == "pfr_reconcile_representation_repair" then 4
    else if phase == "deep_thinking" then 5
    else if phase == "deep_judgment" then 6
    else if phase == "final_output" then 7
    else if phase == "final_presentation" then 8
    else if phase == "final_presentation_repair" then 9
    else 99
  }

  /** `item.get("call_index") or item.get("round")`. */
  function Ordinal(c: Call): int {
    if c.callIndex != 0 then c.callIndex else c.round
  }

  function PhaseKey(c: Call, written: Written): Ordering.SortKey {
    [Ordering.Num(if c.pipelinePhase == "context" then 0 else if c.pipelinePhase == "review" then 1 else 2),
     Ordering.Num(c.pipelineAttempt), Ordering.Num(PhaseRank(c.phase)), Ordering.Num(Ordinal(c)),
     Ordering.Num(c.transportIndex), Ordering.Num(c.attempt), Ordering.Text(written(c.callId))]
  }

  function SortPhases(rows: seq<Call>, written: Written): seq<Call> {
    Ordering.Sort(rows, c => PhaseKey(c, written))
  }

  // --------------------------------------------------------------- fallback phases

  predicate ReviewPhase(phase: string) {
    || phase == "deep_thinking" || phase == "deep_judgment" || phase == "final_output"
    || phase == "final_presentation" || phase == "final_presentation_repair"
  }

  /** A fallback phase with its missing coordinates filled in from the winning attempts. */
  function Placed(raw: Call, contextAttempt: int, reviewAttempt: Option<int>): Call {
    var phase := CanonicalPhase(raw.phase);
    var pipelinePhase :=
      if raw.pipelinePhase != "" then raw.pipelinePhase else if ReviewPhase(phase) then "review" else "context";
    var pipelineAttempt :=
      if raw.pipelineAttempt > 0 then raw.pipelineAttempt
      else if pipelinePhase != "review" then contextAttempt
      else if reviewAttempt.Some? then reviewAttempt.value
      else 0;
    raw.(phase := phase, pipelinePhase := pipelinePhase, pipelineAttempt := pipelineAttempt,
         usageState := if raw.usageState != "" then raw.usageState
                       else if raw.usage != EMPTY && raw.usage != Other then "reported" else "unreported")
  }

  /** A durable row that a fallback phase may be another report of. */
  predicate Fits(durable: Call, call: Call) {
    if call.callId != NO_ID then durable.callId == call.callId
    else
      && durable.pipelinePhase == call.pipelinePhase && durable.pipelineAttempt == call.pipelineAttempt
      && durable.phase == call.phase && durable.model == call.model
      && (Ordinal(call) != 0 ==> durable.callIndex == Ordinal(call))
  }

  /** Row i comes before row j when both could be the one that a phase is another report of. */
  predicate Before(calls: seq<Call>, i: nat, j: nat)
    requires i < |calls| && j < |calls|
  {
    calls[i].callIndex < calls[j].callIndex || (calls[i].callIndex == calls[j].callIndex && i <= j)
  }

  predicate Open(calls: seq<Call>, taken: set<nat>, call: Call, i: nat) {
    i < |calls| && i !in taken && Fits(calls[i], call)
  }

  /** The first row, by call index and then by position, that fits and that no earlier phase has taken. */
  ghost predicate IsBest(calls: seq<Call>, taken: set<nat>, call: Call, hit: Option<nat>) {
    match hit
    case None => forall i: nat :: !Open(calls, taken, call, i)
    case Some(h) => Open(calls, taken, call, h) && forall i: nat :: Open(calls, taken, call, i) ==> Before(calls, h, i)
  }

  lemma BestIsDetermined(calls: seq<Call>, taken: set<nat>, call: Call, a: Option<nat>, b: Option<nat>)
    requires IsBest(calls, taken, call, a) && IsBest(calls, taken, call, b)
    ensures a == b
  {
    hide Fits;
    if a.Some? { assert Open(calls, taken, call, a.value); }
    if b.Some? { assert Open(calls, taken, call, b.value); }
  }

  /** The positions of the rows that are no longer there to be matched. */
  function Gone(calls: seq<Call>, unmatched: set<nat>): set<nat> {
    set i: nat | i < |calls| && i !in unmatched
  }

  method BestFit(calls: seq<Call>, unmatched: set<nat>, call: Call) returns (hit: Option<nat>)
    ensures IsBest(calls, Gone(calls, unmatched), call, hit)
  {
    hide Fits;
    ghost var taken := Gone(calls, unmatched);
    hit := None;
    for n := 0 to |calls|
      invariant hit.None? ==> forall i: nat :: i < n ==> !Open(calls, taken, call, i)
      invariant hit.Some? ==>
                  && hit.value < n && Open(calls, taken, call, hit.value)
                  && forall i: nat :: i < n && Open(calls, taken, call, i) ==> Before(calls, hit.value, i)
    {
      if n in unmatched && Fits(calls[n], call)
         && (hit.None? || calls[n].callIndex < calls[hit.value].callIndex) {
        hit := Some(n);
      }
    }
  }

  lemma SameRowsGone(calls: seq<Call>, unmatched: set<nat>, taken: set<nat>, call: Call, hit: Option<nat>)
    requires forall i: nat :: i in unmatched <==> i < |calls| && i !in taken
    ensures IsBest(calls, Gone(calls, unmatched), call, hit) <==> IsBest(calls, taken, call, hit)
  {
    hide Fits;
    forall i: nat
      ensures Open(calls, Gone(calls, unmatched), call, i) <==> Open(calls, taken, call, i)
    {
    }
  }

  function BestUpTo(calls: seq<Call>, taken: set<nat>, call: Call, n: nat): Option<nat>
    requires n <= |calls|
  {
    if n == 0 then None
    else
      var hit := BestUpTo(calls, taken, call, n - 1);
      if Open(calls, taken, call, n - 1) && (hit.None? || hit.value >= |calls| || !Before(calls, hit.value, n - 1))
      then Some(n - 1) else hit
  }

  lemma {:induction false} BestUpToIsBest(calls: seq<Call>, taken: set<nat>, call: Call, n: nat)
    requires n <= |calls|
    ensures match BestUpTo(calls, taken, call, n)
            case None => forall i: nat :: i < n ==> !Open(calls, taken, call, i)
            case Some(h) => h < n && Open(calls, taken, call, h)
                            && forall i: nat :: i < n && Open(calls, taken, call, i) ==> Before(calls, h, i)
  {
    hide Fits;
    if n > 0 { BestUpToIsBest(calls, taken, call, n - 1); }
  }

  function Taken(hits: seq<Option<nat>>): set<nat> {
    set k | 0 <= k < |hits| && hits[k].Some? :: hits[k].value
  }

  /** The row that each phase is taken for, phase by phase. */
  function Hits(calls: seq<Call>, phases: seq<Call>): (hits: seq<Option<nat>>)
    ensures |hits| == |phases|
  {
    if phases == [] then []
    else
      var front := Hits(calls, phases[..|phases| - 1]);
      front + [BestUpTo(calls, Taken(front), phases[|phases| - 1], |calls|)]
  }

  /** Each phase takes the first fitting row that the phases before it left. */
  ghost predicate Matching(calls: seq<Call>, phases: seq<Call>, hits: seq<Option<nat>>) {
    |hits| == |phases| && forall i :: 0 <= i < |phases| ==> IsBest(calls, Taken(hits[..i]), phases[i], hits[i])
  }

  lemma {:induction false} HitsMatch(calls: seq<Call>, phases: seq<Call>)
    ensures Matching(calls, phases, Hits(calls, phases))
  {
    hide IsBest, BestUpTo, Taken;
    if phases != [] {
      var n := |phases| - 1;
      var front, hits := Hits(calls, phases[..n]), Hits(calls, phases);
      HitsMatch(calls, phases[..n]);
      BestIs(calls, Taken(front), phases[n]);
      forall i | 0 <= i < |phases|
        ensures IsBest(calls, Taken(hits[..i]), phases[i], hits[i])
      {
        assert hits[..i] == front[..i];
        if i < n { assert IsBest(calls, Taken(front[..i]), phases[..n][i], front[i]); } else { assert front[..i] == front; }
      }
    }
  }

  lemma BestIs(calls: seq<Call>, taken: set<nat>, call: Call)
    ensures IsBest(calls, taken, call, BestUpTo(calls, taken, call, |calls|))
  {
    hide Fits;
    BestUpToIsBest(calls, taken, call, |calls|);
  }

  /** There is one such matching. */
  lemma {:induction false} MatchingIsDetermined(calls: seq<Call>, phases: seq<Call>, hits: seq<Option<nat>>)
    requires Matching(calls, phases, hits)
    ensures hits == Hits(calls, phases)
  {
    hide IsBest, BestUpTo, Taken;
    if phases != [] {
      var n := |phases| - 1;
      var front := hits[..n];
      forall i | 0 <= i < n
        ensures IsBest(calls, Taken(front[..i]), phases[..n][i], front[i])
      {
        assert front[..i] == hits[..i];
      }
      MatchingIsDetermined(calls, phases[..n], front);
      BestIs(calls, Taken(front), phases[n]);
      BestIsDetermined(calls, Taken(front), phases[n], hits[n], BestUpTo(calls, Taken(front), phases[n], |calls|));
      assert hits == front + [hits[n]];
    }
  }

  /** No row absorbs two phases, and the row of a phase fits it. */
  lemma RowsAbsorbOnce(calls: seq<Call>, phases: seq<Call>, i: nat, j: nat)
    requires i < |phases| && j < |phases| && Hits(calls, phases)[i].Some?
    ensures Open(calls, {}, phases[i], Hits(calls, phases)[i].value)
    ensures i != j ==> Hits(calls, phases)[i] != Hits(calls, phases)[j]
  {
    hide Fits;
    HitsMatch(calls, phases);
    var hits := Hits(calls, phases);
    assert IsBest(calls, Taken(hits[..i]), phases[i], hits[i]);
    assert IsBest(calls, Taken(hits[..j]), phases[j], hits[j]);
    if i < j { assert hits[..j][i] == hits[i]; }
    if j < i { assert hits[..i][j] == hits[j]; }
  }

  /** A phase is left over exactly when the phases before it took every row that fits it. */
  lemma LeftOverExactly(calls: seq<Call>, phases: seq<Call>, i: nat)
    requires i < |phases|
    ensures Hits(calls, phases)[i].None? <==>
            forall j :: 0 <= j < |calls| && Fits(calls[j], phases[i]) ==> exists k :: 0 <= k < i && Hits(calls, phases)[k] == Some(j)
  {
    hide Fits;
    HitsMatch(calls, phases);
    var hits := Hits(calls, phases);
    var before := hits[..i];
    assert IsBest(calls, Taken(before), phases[i], hits[i]);
    forall j: nat | j < |calls|
      ensures j in Taken(before) <==> exists k :: 0 <= k < i && hits[k] == Some(j)
    {
      if k :| 0 <= k < i && hits[k] == Some(j) { assert before[k] == Some(j); }
      if j in Taken(before) { var k :| 0 <= k < |before| && before[k].Some? && before[k].value == j; assert hits[k] == Some(j); }
    }
    if hits[i].None? {
      forall j: nat | j < |calls| && Fits(calls[j], phases[i])
        ensures exists k :: 0 <= k < i && hits[k] == Some(j)
      {
        assert !Open(calls, Taken(before), phases[i], j);
      }
    }
  }

  function Unabsorbed(phases: seq<Call>, hits: seq<Option<nat>>): seq<Call>
    requires |hits| == |phases|
  {
    if phases == [] then []
    else
      var n := |phases| - 1;
      Unabsorbed(phases[..n], hits[..n]) + (if hits[n].None? then [phases[n]] else [])
  }

  function PlacedAll(fallback: seq<Call>, contextAttempt: int, reviewAttempt: Option<int>): seq<Call> {
    seq(|fallback|, i requires 0 <= i < |fallback| => Placed(fallback[i], contextAttempt, reviewAttempt))
  }

  /** The fallback phases, placed, that no durable row reports. */
  function Supplemental(calls: seq<Call>, fallback: seq<Call>, contextAttempt: int, reviewAttempt: Option<int>): seq<Call> {
    var phases := PlacedAll(fallback, contextAttempt, reviewAttempt);
    Unabsorbed(phases, Hits(calls, phases))
  }

  lemma HitsExtend(calls: seq<Call>, phases: seq<Call>, call: Call)
    ensures Hits(calls, phases + [call])
            == Hits(calls, phases) + [BestUpTo(calls, Taken(Hits(calls, phases)), call, |calls|)]
  {
    assert (phases + [call])[..|phases|] == phases;
  }

  lemma UnabsorbedExtend(phases: seq<Call>, hits: seq<Option<nat>>, call: Call, hit: Option<nat>)
    requires |hits| == |phases|
    ensures Unabsorbed(phases + [call], hits + [hit]) == Unabsorbed(phases, hits) + (if hit.None? then [call] else [])
  {
    assert (phases + [call])[..|phases|] == phases && (hits + [hit])[..|hits|] == hits;
  }

  lemma TakenExtend(hits: seq<Option<nat>>, hit: Option<nat>)
    ensures Taken(hits + [hit]) == Taken(hits) + (if hit.Some? then {hit.value} else {})
  {
    var more := hits + [hit];
    assert forall k :: 0 <= k < |hits| ==> more[k] == hits[k];
    assert more[|hits|] == hit;
  }

  /** Adds exactly the phases that are left over once every durable row has absorbed what it can. */
  method Supplement(calls: seq<Call>, fallback: seq<Call>, contextAttempt: int, reviewAttempt: Option<int>)
    returns (supplemental: seq<Call>)
    ensures supplemental == Supplemental(calls, fallback, contextAttempt, reviewAttempt)
  {
    hide Fits, Placed, IsBest, Taken, Hits, Unabsorbed, BestUpTo;
    supplemental := [];
    var unmatched: set<nat> := IndexSet(|calls|);
    ghost var phases, hits := [], [];
    NothingMatched(calls);
    for n := 0 to |fallback|
      invariant phases == PlacedAll(fallback, contextAttempt, reviewAttempt)[..n]
      invariant hits == Hits(calls, phases) && supplemental == Unabsorbed(phases, hits)
      invariant forall i: nat :: i in unmatched <==> i < |calls| && i !in Taken(hits)
    {
      var call := Placed(fallback[n], contextAttempt, reviewAttempt);
      var hit := BestFit(calls, unmatched, call);
      SameRowsGone(calls, unmatched, Taken(hits), call, hit);
      BestIs(calls, Taken(hits), call);
      BestIsDetermined(calls, Taken(hits), call, hit, BestUpTo(calls, Taken(hits), call, |calls|));
      HitsExtend(calls, phases, call);
      UnabsorbedExtend(phases, hits, call, hit);
      TakenExtend(hits, hit);
      phases, hits := phases + [call], hits + [hit];
      if hit.Some? {
        unmatched := unmatched - {hit.value};
      } else {
        supplemental := supplemental + [call];
      }
    }
    assert phases == PlacedAll(fallback, contextAttempt, reviewAttempt);
  }

  lemma NothingMatched(calls: seq<Call>)
    ensures Hits(calls, []) == [] && Unabsorbed([], []) == [] && Taken([]) == {}
  {
  }

  /** Phases that repeat durable rows by call id, each its own, add nothing: their usage is counted once. */
  lemma RepeatsAreAbsorbed(calls: seq<Call>, fallback: seq<Call>, contextAttempt: int, reviewAttempt: Option<int>)
    requires forall i :: 0 <= i < |fallback| ==>
               fallback[i].callId != NO_ID && exists j :: 0 <= j < |calls| && calls[j].callId == fallback[i].callId
    requires forall i, j :: 0 <= i < j < |fallback| ==> fallback[i].callId != fallback[j].callId
    ensures Supplemental(calls, fallback, contextAttempt, reviewAttempt) == []
  {
    hide Hits;
    var phases := PlacedAll(fallback, contextAttempt, reviewAttempt);
    var hits := Hits(calls, phases);
    forall i | 0 <= i < |phases|
      ensures hits[i].Some?
    {
      assert phases[i].callId == fallback[i].callId;
      var j :| 0 <= j < |calls| && calls[j].callId == fallback[i].callId;
      assert Fits(calls[j], phases[i]);
      LeftOverExactly(calls, phases, i);
      if hits[i].None? {
        var k :| 0 <= k < i && hits[k] == Some(j);
        RowsAbsorbOnce(calls, phases, k, i);
        assert false;
      }
    }
    AllAbsorbed(phases, hits);
  }

  lemma {:induction false} AllAbsorbed(phases: seq<Call>, hits: seq<Option<nat>>)
    requires |hits| == |phases| && forall i :: 0 <= i < |hits| ==> hits[i].Some?
    ensures Unabsorbed(phases, hits) == []
  {
    if phases != [] { AllAbsorbed(phases[..|phases| - 1], hits[..|hits| - 1]); }
  }

  function IndexSet(n: nat): (r: set<nat>)
    ensures |r| == n && forall i: nat :: i in r <==> i < n
  {
    if n == 0 then {} else IndexSet(n - 1) + {n - 1}
  }

  // -------------------------------------------------------------------- projection

  datatype Tally = Tally(
    schema: int, allCount: int, operationCount: int, winningCount: int, discardedCount: int,
    unreported: int, conflicts: set<seq<string>>, complete: bool)

  datatype Artifact = Artifact(
    all: seq<Call>, winning: seq<Call>, discarded: seq<Call>,
    total: Value, winningTotal: Value, discardedTotal: Value, tally: Tally)

  predicate Wins(c: Call, contextAttempt: int, reviewAttempt: Option<int>) {
    || (c.pipelinePhase == "context" && c.pipelineAttempt == contextAttempt)
    || (c.pipelinePhase == "review" && reviewAttempt == Some(c.pipelineAttempt))
  }

  function Selected(rows: seq<Call>, winning: bool, contextAttempt: int, reviewAttempt: Option<int>): seq<Call> {
    if rows == [] then []
    else
      var front, last := Selected(rows[..|rows| - 1], winning, contextAttempt, reviewAttempt), rows[|rows| - 1];
      if Wins(last, contextAttempt, reviewAttempt) == winning then front + [last] else front
  }

  /** The row's usage reduced to its numeric tree, and whether that is a complete report. */
  function Normalize(c: Call): Call {
    var (usage, errors) := ValidateTokenUsage(c.usage);
    var declared := Lower(Strip(c.usageState));
    c.(usage := usage,
       usageState := if errors == {} && (declared == "" || declared == "reported") then "reported" else "unreported",
       usageErrors := if errors != {} then errors else c.usageErrors)
  }

  function NormalizeAll(rows: seq<Call>): seq<Call> {
    seq(|rows|, i requires 0 <= i < |rows| => Normalize(rows[i]))
  }

  function Usages(rows: seq<Call>): seq<Value> {
    seq(|rows|, i requires 0 <= i < |rows| => rows[i].usage)
  }

  function OperationIds(rows: seq<Call>): set<Id> {
    set c | c in rows && (c.operationId != NO_ID || c.callId != NO_ID)
      :: if c.operationId != NO_ID then c.operationId else c.callId
  }

  function UnreportedRows(rows: seq<Call>): seq<Call> {
    if rows == [] then []
    else
      var front, last := UnreportedRows(rows[..|rows| - 1]), rows[|rows| - 1];
      if last.usageState != "reported" then front + [last] else front
  }

  /** The artifact of three finished partitions. */
  function Report(all: seq<Call>, winning: seq<Call>, discarded: seq<Call>): Artifact {
    var conflicts := AllConflicts(Usages(all)) + AllConflicts(Usages(winning)) + AllConflicts(Usages(discarded));
    var unreported := |UnreportedRows(all)|;
    Artifact(all, winning, discarded, MergeAll(Usages(all)), MergeAll(Usages(winning)), MergeAll(Usages(discarded)),
             Tally(2, |all|, |OperationIds(all)|, |winning|, |discarded|, unreported, conflicts,
                   unreported == 0 && conflicts == {}))
  }

  /** The projection of an ordered ledger onto its winning attempts. */
  function Project(rows: seq<Call>, contextAttempt: int, reviewAttempt: Option<int>): Artifact {
    Report(NormalizeAll(rows),
           NormalizeAll(Selected(rows, true, contextAttempt, reviewAttempt)),
           NormalizeAll(Selected(rows, false, contextAttempt, reviewAttempt)))
  }

  method Split(rows: seq<Call>, contextAttempt: int, reviewAttempt: Option<int>)
    returns (winning: seq<Call>, discarded: seq<Call>)
    ensures winning == Selected(rows, true, contextAttempt, reviewAttempt)
    ensures discarded == Selected(rows, false, contextAttempt, reviewAttempt)
  {
    hide Wins;
    winning, discarded := [], [];
    for n := 0 to |rows|
      invariant winning == Selected(rows[..n], true, contextAttempt, reviewAttempt)
      invariant discarded == Selected(rows[..n], false, contextAttempt, reviewAttempt)
    {
      assert rows[..n + 1][..n] == rows[..n];
      if Wins(rows[n], contextAttempt, reviewAttempt) {
        winning := winning + [rows[n]];
      } else {
        discarded := discarded + [rows[n]];
      }
    }
    assert rows[..|rows|] == rows;
  }

  /** Rewrites each row's usage fields in place. */
  method NormalizeRows(rows: array<Call>)
    modifies rows
    ensures rows[..] == NormalizeAll(old(rows[..]))
  {
    hide Normalize;
    for n := 0 to rows.Length
      invariant forall i :: 0 <= i < n ==> rows[i] == Normalize(old(rows[i]))
      invariant forall i :: n <= i < rows.Length ==> rows[i] == old(rows[i])
    {
      rows[n] := Normalize(rows[n]);
    }
  }

  method CountUnreported(rows: seq<Call>) returns (unreported: seq<Call>)
    ensures unreported == UnreportedRows(rows)
  {
    unreported := [];
    for n := 0 to |rows|
      invariant unreported == UnreportedRows(rows[..n])
    {
      assert rows[..n + 1][..n] == rows[..n];
      if rows[n].usageState != "reported" { unreported := unreported + [rows[n]]; }
    }
    assert rows[..|rows|] == rows;
  }

  method Normalized(rows: seq<Call>) returns (normalized: seq<Call>)
    ensures normalized == NormalizeAll(rows)
  {
    var buffer := new Call[|rows|](i requires 0 <= i < |rows| => rows[i]);
    assert buffer[..] == rows;
    NormalizeRows(buffer);
    normalized := buffer[..];
  }

  /**
    `provider_usage_accounting`: the durable ledger, completed by the fallback phases that nothing
    durable reports, or the fallback alone when there is no durable ledger.
   */
  method ProviderUsageAccounting(providerCalls: seq<Call>, fallbackPhases: seq<Call>, contextAttempt: int,
                                 reviewAttempt: Option<int>, written: Written)
    returns (artifact: Artifact)
    ensures if providerCalls == [] then
              artifact == Report(NormalizeAll(SortPhases(Dedupe(fallbackPhases), written)),
                                 NormalizeAll(SortPhases(Dedupe(fallbackPhases), written)), [])
            else
              var calls := Dedupe(providerCalls);
              var extra := Supplemental(calls, Dedupe(fallbackPhases), contextAttempt, reviewAttempt);
              artifact == Project(SortPhases(Dedupe(calls + extra), written), contextAttempt, reviewAttempt)
  {
    hide Unique, Report, SortPhases, Normalize, Trees, Supplemental;
    var calls := DedupeModelPhases(providerCalls);
    var fallback := DedupeModelPhases(fallbackPhases);
    UniqueIsEmpty(CanonicalAll(providerCalls));
    UniqueIsEmpty(CanonicalAll(fallbackPhases));
    var rows, winning, discarded;
    if calls != [] {
      var supplemental := Supplement(calls, fallback, contextAttempt, reviewAttempt);
      rows := DedupeModelPhases(calls + supplemental);
      rows := SortPhases(rows, written);
      winning, discarded := Split(rows, contextAttempt, reviewAttempt);
    } else {
      rows := SortPhases(fallback, written);
      winning, discarded := rows, [];
    }
    NormalizedTrees(rows);
    NormalizedTrees(winning);
    NormalizedTrees(discarded);
    rows := Normalized(rows);
    winning := Normalized(winning);
    discarded := Normalized(discarded);
    artifact := ReportUsage(rows, winning, discarded);
  }

  /** Totals, conflicts and counts of three partitions whose usage is already normalized. */
  method ReportUsage(all: seq<Call>, winning: seq<Call>, discarded: seq<Call>) returns (artifact: Artifact)
    requires Trees(Usages(all)) && Trees(Usages(winning)) && Trees(Usages(discarded))
    ensures artifact == Report(all, winning, discarded)
  {
    hide MergeAll, AllConflicts;
    CleanRowsAreKept(Usages(all), true);
    CleanRowsAreKept(Usages(winning), true);
    CleanRowsAreKept(Usages(discarded), true);
    var unreported := CountUnreported(all);
    var total, totalConflicts := MergedUsage(Usages(all), true);
    var winningTotal, winningConflicts := MergedUsage(Usages(winning), true);
    var discardedTotal, discardedConflicts := MergedUsage(Usages(discarded), true);
    var conflicts := totalConflicts + winningConflicts + discardedConflicts;
    artifact := Artifact(all, winning, discarded, total, winningTotal, discardedTotal,
                         Tally(2, |all|, |OperationIds(all)|, |winning|, |discarded|, |unreported|, conflicts,
                               |unreported| == 0 && conflicts == {}));
  }

  lemma UniqueIsEmpty(rows: seq<Call>)
    ensures Unique(rows) == [] <==> rows == []
  {
    hide IdentityOf, Find;
  }

  lemma NormalizedTrees(rows: seq<Call>)
    ensures Trees(Usages(NormalizeAll(rows)))
  {
  }
}
