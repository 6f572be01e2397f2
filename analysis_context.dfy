/**
  The client-side analysis state and its reducer
  (frontend/src/context/AnalysisContext.tsx): a pure function from the current state
  and a dispatched action to the next state.
*/
module AnalysisContext {
  import opened Common
  import opened JsonValues
  import opened Paging

  /**
    An analysis as the API hands it to the browser. The optional fields are the ones the
    history page reads through optional chaining; `keyPoints` and `actionItems` may
    arrive either as arrays or as JSON text.
  */
  datatype ClientAnalysis = ClientAnalysis(
    id: string,
    documentName: Option<string>,
    summary: Option<string>,
    shortSummary: Option<string>,
    keyPoints: Json,
    actionItems: Json,
    confidence: real,
    createdAt: string)

  datatype State = State(
    analyses: seq<ClientAnalysis>,
    recentAnalyses: seq<ClientAnalysis>,
    currentAnalysis: Option<ClientAnalysis>,
    loading: bool,
    error: Option<string>,
    pagination: Pagination)

  /** The dispatched actions; `Other` is any action type the reducer does not know. */
  datatype Action =
    | SetLoading(loading: bool)
    | SetError(error: Option<string>)
    | SetAnalyses(analyses: seq<ClientAnalysis>, pagination: Pagination)
    | SetRecentAnalyses(recent: seq<ClientAnalysis>)
    | SetCurrentAnalysis(current: Option<ClientAnalysis>)
    | AddAnalysis(added: ClientAnalysis)
    | DeleteAnalysis(id: string)
    | Other(kind: string)

  /** How many earlier analyses `ADD_ANALYSIS` keeps behind the new one. */
  const KeptRecent: nat := 4

  /** The state the provider starts from. */
  function InitialState(): (s: State)
    ensures s.analyses == [] && s.recentAnalyses == [] && s.currentAnalysis == None
    ensures !s.loading && s.error == None
    ensures s.pagination == Pagination(1, 10, 0, 0, false, false)
  {
    State([], [], None, false, None, Pagination(1, 10, 0, 0, false, false))
  }

  function IdIsNot(id: string): ClientAnalysis -> bool
  {
    (a: ClientAnalysis) => a.id != id
  }

  /** `analysisReducer(state, action)`. */
  function Reduce(s: State, action: Action): State
  {
    match action
    case SetLoading(b) => s.(loading := b)
    case SetError(e) => s.(error := e, loading := false)
    case SetAnalyses(list, p) => s.(analyses := list, pagination := p, loading := false, error := None)
    case SetRecentAnalyses(list) => s.(recentAnalyses := list, loading := false, error := None)
    case SetCurrentAnalysis(c) => s.(currentAnalysis := c, loading := false, error := None)
    case AddAnalysis(a) => s.(recentAnalyses := [a] + s.recentAnalyses[..Min(KeptRecent, |s.recentAnalyses|)])
    case DeleteAnalysis(id) =>
      s.(analyses := Filter(s.analyses, IdIsNot(id)), recentAnalyses := Filter(s.recentAnalyses, IdIsNot(id)))
    case Other(_) => s
  }

  /** The state after dispatching `actions` one after the other. */
  function ReduceAll(s: State, actions: seq<Action>): State
    decreases |actions|
  {
    if actions == [] then s else ReduceAll(Reduce(s, actions[0]), actions[1..])
  }

  // ----- ADD_ANALYSIS -----

  /**
    The new analysis comes first, followed by the first four earlier ones in their
    order; at most five remain and the full list is not touched.
  */
  lemma AddPutsNewestFirst(s: State, a: ClientAnalysis)
    ensures var r := Reduce(s, AddAnalysis(a));
      && r.recentAnalyses[0] == a
      && r.recentAnalyses[1..] == s.recentAnalyses[..Min(4, |s.recentAnalyses|)]
      && 1 <= |r.recentAnalyses| <= 5
      && r.analyses == s.analyses
      && r.currentAnalysis == s.currentAnalysis && r.loading == s.loading
      && r.error == s.error && r.pagination == s.pagination
  {
    var r := Reduce(s, AddAnalysis(a));
    assert r.recentAnalyses == [a] + s.recentAnalyses[..Min(4, |s.recentAnalyses|)];
  }

  /** Actions that can never leave more than five recent analyses behind them. */
  predicate KeepsRecentBounded(action: Action)
  {
    action.SetRecentAnalyses? ==> |action.recent| <= 5
  }

  /**
    Starting from at most five recent analyses, no run of actions whose replacement
    lists (if any) are short ever shows more than five.
  */
  lemma {:induction false} RecentStaysBounded(s: State, actions: seq<Action>)
    requires |s.recentAnalyses| <= 5
    requires forall i :: 0 <= i < |actions| ==> KeepsRecentBounded(actions[i])
    ensures |ReduceAll(s, actions).recentAnalyses| <= 5
    decreases |actions|
  {
    if actions != [] {
      var next := Reduce(s, actions[0]);
      assert KeepsRecentBounded(actions[0]);
      assert |next.recentAnalyses| <= 5;
      assert forall i :: 0 <= i < |actions[1..]| ==> actions[1..][i] == actions[i + 1];
      RecentStaysBounded(next, actions[1..]);
    }
  }

  // ----- DELETE_ANALYSIS -----

  /**
    Deleting removes every entry with that id from both lists, keeps every other entry,
    keeps the order of what remains, and touches nothing else.
  */
  lemma DeleteRemovesEveryCopy(s: State, id: string)
    ensures var r := Reduce(s, DeleteAnalysis(id));
      && (forall i :: 0 <= i < |r.analyses| ==> r.analyses[i].id != id)
      && (forall i :: 0 <= i < |r.recentAnalyses| ==> r.recentAnalyses[i].id != id)
      && (forall i :: 0 <= i < |s.analyses| && s.analyses[i].id != id ==> s.analyses[i] in r.analyses)
      && (forall i :: 0 <= i < |s.recentAnalyses| && s.recentAnalyses[i].id != id ==>
            s.recentAnalyses[i] in r.recentAnalyses)
      && IsSubsequence(r.analyses, s.analyses)
      && IsSubsequence(r.recentAnalyses, s.recentAnalyses)
      && r.currentAnalysis == s.currentAnalysis && r.loading == s.loading
      && r.error == s.error && r.pagination == s.pagination
  {
    var r := Reduce(s, DeleteAnalysis(id));
    FilterIsSubsequence(s.analyses, IdIsNot(id));
    FilterIsSubsequence(s.recentAnalyses, IdIsNot(id));
    forall i | 0 <= i < |r.analyses| ensures r.analyses[i].id != id {
      assert IdIsNot(id)(r.analyses[i]);
    }
    forall i | 0 <= i < |r.recentAnalyses| ensures r.recentAnalyses[i].id != id {
      assert IdIsNot(id)(r.recentAnalyses[i]);
    }
  }

  /** One `DELETE_ANALYSIS` step, unfolded. */
  lemma DeleteStep(s: State, id: string)
    ensures Reduce(s, DeleteAnalysis(id)) ==
      s.(analyses := Filter(s.analyses, IdIsNot(id)), recentAnalyses := Filter(s.recentAnalyses, IdIsNot(id)))
  { }

  /** Deleting the same id twice is the same as deleting it once. */
  lemma DeleteIsIdempotent(s: State, id: string)
    ensures Reduce(Reduce(s, DeleteAnalysis(id)), DeleteAnalysis(id)) == Reduce(s, DeleteAnalysis(id))
  {
    DeleteStep(s, id);
    DeleteStep(Reduce(s, DeleteAnalysis(id)), id);
    FilterIdempotent(s.analyses, IdIsNot(id));
    FilterIdempotent(s.recentAnalyses, IdIsNot(id));
  }

  /** Filtering out an id that does not occur changes nothing. */
  lemma {:induction false} FilterAbsentId(list: seq<ClientAnalysis>, id: string)
    requires forall i :: 0 <= i < |list| ==> list[i].id != id
    ensures Filter(list, IdIsNot(id)) == list
    decreases |list|
  {
    if list != [] {
      FilterAbsentId(list[1..], id);
      assert list == [list[0]] + list[1..];
    }
  }

  /** Filtering out the id of the head, which occurs nowhere else, leaves the rest. */
  lemma FilterDropsLoneHead(a: ClientAnalysis, rest: seq<ClientAnalysis>)
    requires forall i :: 0 <= i < |rest| ==> rest[i].id != a.id
    ensures Filter([a] + rest, IdIsNot(a.id)) == rest
  {
    assert ([a] + rest)[1..] == rest;
    FilterAbsentId(rest, a.id);
  }

  /**
    Adding an analysis with a new id and then deleting it gives back the earlier recent
    analyses that `ADD_ANALYSIS` kept; the full list is as before.
  */
  lemma AddThenDelete(s: State, a: ClientAnalysis)
    requires forall i :: 0 <= i < |s.recentAnalyses| ==> s.recentAnalyses[i].id != a.id
    requires forall i :: 0 <= i < |s.analyses| ==> s.analyses[i].id != a.id
    ensures var r := Reduce(Reduce(s, AddAnalysis(a)), DeleteAnalysis(a.id));
      r == s.(recentAnalyses := s.recentAnalyses[..Min(4, |s.recentAnalyses|)])
  {
    var kept := s.recentAnalyses[..Min(4, |s.recentAnalyses|)];
    assert forall i :: 0 <= i < |kept| ==> kept[i] == s.recentAnalyses[i];
    FilterDropsLoneHead(a, kept);
    FilterAbsentId(s.analyses, a.id);
    var added := s.(recentAnalyses := [a] + kept);
    assert Reduce(s, AddAnalysis(a)) == added;
    DeleteStep(added, a.id);
  }

  // ----- The loading and error flags -----

  /** `SET_ERROR` records the error, stops loading and keeps both lists. */
  lemma SetErrorStopsLoading(s: State, e: Option<string>)
    ensures var r := Reduce(s, SetError(e));
      r.error == e && !r.loading && r.analyses == s.analyses
      && r.recentAnalyses == s.recentAnalyses && r.currentAnalysis == s.currentAnalysis
      && r.pagination == s.pagination
  {
  }

  /** A successful load replaces exactly its own field (and the pagination for the full list) and clears loading and error. */
  lemma LoadsClearLoadingAndError(s: State, action: Action)
    requires action.SetAnalyses? || action.SetRecentAnalyses? || action.SetCurrentAnalysis?
    ensures var r := Reduce(s, action);
      && !r.loading && r.error == None
      && r.analyses == (if action.SetAnalyses? then action.analyses else s.analyses)
      && r.pagination == (if action.SetAnalyses? then action.pagination else s.pagination)
      && r.recentAnalyses == (if action.SetRecentAnalyses? then action.recent else s.recentAnalyses)
      && r.currentAnalysis == (if action.SetCurrentAnalysis? then action.current else s.currentAnalysis)
  {
  }

  /** `SET_LOADING` sets the flag and changes nothing else. */
  lemma SetLoadingChangesOnlyTheFlag(s: State, b: bool)
    ensures Reduce(s, SetLoading(b)).loading == b
    ensures Reduce(s, SetLoading(b)).(loading := s.loading) == s
  {
  }

  /** An action type the reducer does not know leaves the state as it is. */
  lemma UnknownActionIsIgnored(s: State, kind: string)
    ensures Reduce(s, Other(kind)) == s
  {
  }

  /**
    The `loadAllAnalyses` sequence (`SET_LOADING true`, then `SET_ANALYSES` or
    `SET_ERROR`) always ends with loading off.
  */
  lemma LoadSequenceEndsIdle(s: State, outcome: Result<(seq<ClientAnalysis>, Pagination), string>)
    ensures var last := if outcome.Ok? then SetAnalyses(outcome.value.0, outcome.value.1)
                        else SetError(Some(outcome.error));
      var r := ReduceAll(s, [SetLoading(true), last]);
      !r.loading && (r.error == None <==> outcome.Ok?)
  {
    var last := if outcome.Ok? then SetAnalyses(outcome.value.0, outcome.value.1) else SetError(Some(outcome.error));
    var loading := Reduce(s, SetLoading(true));
    assert [SetLoading(true), last][1..] == [last];
    assert ReduceAll(s, [SetLoading(true), last]) == ReduceAll(loading, [last]);
    assert [last][1..] == [];
    assert ReduceAll(loading, [last]) == Reduce(loading, last);
  }
}
