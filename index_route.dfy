/**
 * The home page's state: the fetched cases, the selected case id, and the
 * loading and submitting flags, with the transitions the page applies when
 * cases are fetched, created and deleted. The API calls are parameters: each
 * transition receives what the call returned or threw.
 */
module CasesPage {
  import opened Common
  import opened ClientCases

  /** JavaScript truthiness of `number | null`: null and 0 are falsy. */
  predicate Truthy(id: Option<int>) {
    id.Some? && id.value != 0
  }

  /** `cases.some((c) => c.id === id)`. */
  predicate HasId(cases: seq<CaseRecord>, id: int) {
    exists i :: 0 <= i < |cases| && cases[i].id == id
  }

  /** The selection is nothing, or the id of a listed case. */
  predicate SelectionListed(cases: seq<CaseRecord>, selected: Option<int>) {
    selected.None? || HasId(cases, selected.value)
  }

  function WithoutId(id: int): CaseRecord -> bool {
    (c: CaseRecord) => c.id != id
  }

  /** `cases.find((c) => c.id === selected)`, scanned from the left. */
  function FirstWithId(cases: seq<CaseRecord>, selected: Option<int>): Option<CaseRecord>
  {
    if cases == [] || selected.None? then None
    else if cases[0].id == selected.value then Some(cases[0])
    else FirstWithId(cases[1..], selected)
  }

  /**
   * The search finds a case exactly when some listed case has the id, and then
   * it is the case at the first such position.
   */
  lemma {:induction false} FirstWithIdIsFirst(cases: seq<CaseRecord>, selected: Option<int>)
    ensures FirstWithId(cases, selected).Some? <==> selected.Some? && HasId(cases, selected.value)
    ensures FirstWithId(cases, selected).Some? ==>
      exists i :: 0 <= i < |cases| && cases[i] == FirstWithId(cases, selected).value &&
        cases[i].id == selected.value && forall j :: 0 <= j < i ==> cases[j].id != selected.value
  {
    if cases != [] && selected.Some? && cases[0].id != selected.value {
      var rest := cases[1..];
      FirstWithIdIsFirst(rest, selected);
      if FirstWithId(rest, selected).Some? {
        var i :| 0 <= i < |rest| && rest[i] == FirstWithId(rest, selected).value && rest[i].id == selected.value &&
          forall j :: 0 <= j < i ==> rest[j].id != selected.value;
        assert cases[i + 1] == rest[i];
        assert forall j :: 0 <= j < i + 1 ==> cases[j].id != selected.value by {
          forall j | 0 <= j < i + 1 ensures cases[j].id != selected.value {
            if j > 0 { assert cases[j] == rest[j - 1]; }
          }
        }
      }
      if HasId(cases, selected.value) {
        var i :| 0 <= i < |cases| && cases[i].id == selected.value;
        assert rest[i - 1].id == selected.value;
      }
    } else if cases != [] && selected.Some? {
      assert cases[0].id == selected.value;
    }
  }

  /**
   * The selection `applyCases` moves to: nothing for an empty list, the
   * previous selection when it is truthy and still listed, otherwise the
   * first fetched case.
   */
  function NextSelection(previous: Option<int>, fetched: seq<CaseRecord>): (next: Option<int>)
    ensures SelectionListed(fetched, next)
    ensures next.None? <==> fetched == []
    ensures Truthy(previous) && HasId(fetched, previous.value) ==> next == previous
    ensures next.Some? && next != previous ==> next == Some(fetched[0].id)
  {
    if fetched == [] then None
    else if Truthy(previous) && HasId(fetched, previous.value) then previous
    else Some(fetched[0].id)
  }

  class CasesPage {
    var cases: seq<CaseRecord>
    var selectedCaseId: Option<int>
    var isLoadingCases: bool
    var isSubmittingCase: bool

    /** The page never selects a case that is not listed. */
    ghost predicate Valid()
      reads this
    {
      SelectionListed(cases, selectedCaseId)
    }

    /** First render: no cases, nothing selected, loading. */
    constructor ()
      ensures cases == [] && selectedCaseId == None && isLoadingCases && !isSubmittingCase
      ensures Valid()
    {
      cases := [];
      selectedCaseId := None;
      isLoadingCases := true;
      isSubmittingCase := false;
    }

    /**
     * `applyCases`: the fetched list replaces the cases; the selection is kept
     * when it is truthy and still listed, otherwise the first case is selected,
     * or nothing when the list is empty.
     */
    method ApplyCases(fetched: seq<CaseRecord>)
      modifies this`cases, this`selectedCaseId
      ensures cases == fetched
      ensures selectedCaseId == NextSelection(old(selectedCaseId), fetched)
      ensures fetched == [] ==> selectedCaseId == None
      ensures fetched != [] && Truthy(old(selectedCaseId)) && HasId(fetched, old(selectedCaseId).value) ==>
        selectedCaseId == old(selectedCaseId)
      ensures fetched != [] && !(Truthy(old(selectedCaseId)) && HasId(fetched, old(selectedCaseId).value)) ==>
        selectedCaseId == Some(fetched[0].id)
      ensures Valid()
    {
      cases := fetched;
      if fetched == [] {
        selectedCaseId := None;
      } else if Truthy(selectedCaseId) && HasId(fetched, selectedCaseId.value) {
      } else {
        selectedCaseId := Some(fetched[0].id);
      }
    }

    /** The fetch on mount: a failure is only reported, and loading ends either way. */
    method InitialLoad(outcome: Result<seq<CaseRecord>, Thrown>)
      modifies this`cases, this`selectedCaseId, this`isLoadingCases
      ensures !isLoadingCases
      ensures outcome.Ok? ==>
        cases == outcome.value && selectedCaseId == NextSelection(old(selectedCaseId), outcome.value) && Valid()
      ensures outcome.Err? ==> cases == old(cases) && selectedCaseId == old(selectedCaseId)
    {
      isLoadingCases := true;
      if outcome.Ok? {
        ApplyCases(outcome.value);
      }
      isLoadingCases := false;
    }

    /** `refreshCases`: like the first fetch, but a failure is thrown again to the caller. */
    method Refresh(outcome: Result<seq<CaseRecord>, Thrown>) returns (result: Result<(), Thrown>)
      modifies this`cases, this`selectedCaseId, this`isLoadingCases
      ensures !isLoadingCases
      ensures outcome.Ok? ==>
        result.Ok? && cases == outcome.value && selectedCaseId == NextSelection(old(selectedCaseId), outcome.value) && Valid()
      ensures outcome.Err? ==> result == Err(outcome.error) && cases == old(cases) && selectedCaseId == old(selectedCaseId)
    {
      isLoadingCases := true;
      if outcome.Ok? {
        ApplyCases(outcome.value);
        result := Ok(());
      } else {
        result := Err(outcome.error);
      }
      isLoadingCases := false;
    }

    /**
     * `handleCreateCase`: the created case goes first and becomes the selection;
     * on failure nothing changes and the error is thrown again.
     */
    method HandleCreateCase(outcome: Result<CaseRecord, Thrown>) returns (result: Result<(), Thrown>)
      modifies this`cases, this`selectedCaseId, this`isSubmittingCase
      ensures !isSubmittingCase
      ensures outcome.Ok? ==>
        result.Ok? && cases == [outcome.value] + old(cases) && selectedCaseId == Some(outcome.value.id)
      ensures outcome.Err? ==>
        result == Err(outcome.error) && cases == old(cases) && selectedCaseId == old(selectedCaseId)
      ensures old(Valid()) ==> Valid()
    {
      isSubmittingCase := true;
      if outcome.Ok? {
        var created := outcome.value;
        cases := [created] + cases;
        selectedCaseId := Some(created.id);
        assert cases[0].id == created.id;
        result := Ok(());
      } else {
        result := Err(outcome.error);
      }
      isSubmittingCase := false;
    }

    /**
     * `handleDeleteCase`: every case with the deleted id is dropped; a truthy
     * selection of another case is kept, otherwise the first remaining case (or
     * nothing) is selected. On failure nothing changes and the error is thrown again.
     */
    method HandleDeleteCase(record: CaseRecord, failure: Option<Thrown>) returns (result: Result<(), Thrown>)
      modifies this`cases, this`selectedCaseId
      ensures failure.None? ==> result.Ok? && cases == Filter(old(cases), WithoutId(record.id))
      ensures failure.None? && Truthy(old(selectedCaseId)) && old(selectedCaseId).value != record.id ==>
        selectedCaseId == old(selectedCaseId)
      ensures failure.None? && !(Truthy(old(selectedCaseId)) && old(selectedCaseId).value != record.id) ==>
        selectedCaseId == if cases == [] then None else Some(cases[0].id)
      ensures failure.Some? ==>
        result == Err(failure.value) && cases == old(cases) && selectedCaseId == old(selectedCaseId)
      ensures old(Valid()) ==> Valid()
    {
      if failure.Some? {
        return Err(failure.value);
      }
      var updated := Filter(cases, WithoutId(record.id));
      var fallbackCaseId: Option<int> := None;
      if updated != [] {
        fallbackCaseId := Some(updated[0].id);
      }
      if old(Valid()) && Truthy(selectedCaseId) && selectedCaseId.value != record.id {
        var i :| 0 <= i < |cases| && cases[i].id == selectedCaseId.value;
        assert WithoutId(record.id)(cases[i]);
        var k :| 0 <= k < |updated| && updated[k] == cases[i];
      }
      cases := updated;
      if !(Truthy(selectedCaseId) && selectedCaseId.value != record.id) {
        selectedCaseId := fallbackCaseId;
      }
      if fallbackCaseId.Some? {
        assert cases[0].id == fallbackCaseId.value;
      }
      result := Ok(());
    }

    /** `selectedCase`: the first listed case with the selected id. */
    function SelectedCase(): (selected: Option<CaseRecord>)
      reads this
      ensures selected.Some? ==> selected.value in cases && Some(selected.value.id) == selectedCaseId
      ensures Valid() ==> (selected.Some? <==> selectedCaseId.Some?)
    {
      FirstWithIdIsFirst(cases, selectedCaseId);
      FirstWithId(cases, selectedCaseId)
    }
  }

  /** A deletion keeps the other cases, in order, and no case with the deleted id. */
  lemma DeleteKeepsOthers(cases: seq<CaseRecord>, id: int, c: CaseRecord)
    ensures IsSubsequence(Filter(cases, WithoutId(id)), cases)
    ensures c in Filter(cases, WithoutId(id)) <==> c in cases && c.id != id
  {
    FilterIsSubsequence(cases, WithoutId(id));
    var kept := Filter(cases, WithoutId(id));
    if c in kept {
      var i :| 0 <= i < |kept| && kept[i] == c;
    }
    if c in cases && c.id != id {
      var i :| 0 <= i < |cases| && cases[i] == c;
      assert WithoutId(id)(cases[i]);
    }
  }
}
