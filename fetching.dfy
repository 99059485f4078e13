/** The fetch lifecycle of the poster list (`usePosters`): a state among Idle,
    Loading, Success and Error, and the list of view models shown beside it.
    The entry lookups and asset lookups of the space API are parameters. */
module Fetching {
  import opened Wrappers
  import opened Posters

  datatype FetchingState = Idle | Loading | Success | Error

  /** What the hook hands to the view: four flags and the poster list. */
  datatype UsePostersResult = UsePostersResult(
    isIdle: bool, isLoading: bool, isSuccess: bool, isError: bool, data: seq<Poster>)

  /** Exactly one of the four flags is set. */
  predicate ExactlyOneFlag(r: UsePostersResult) {
    && (r.isIdle ==> !r.isLoading && !r.isSuccess && !r.isError)
    && (r.isLoading ==> !r.isSuccess && !r.isError)
    && (r.isSuccess ==> !r.isError)
    && (r.isIdle || r.isLoading || r.isSuccess || r.isError)
  }

  /** `Promise.all(references.map(getEntry))`: the referenced entries in
      reference order, or `None` if any lookup fails. */
  function FetchEntries(getEntry: string -> Option<PosterEntry>, references: seq<Link>)
    : (r: Option<seq<PosterEntry>>)
    ensures r.Some? <==> forall i :: 0 <= i < |references| ==> getEntry(references[i].id).Some?
    ensures r.Some? ==>
      && |r.value| == |references|
      && forall i :: 0 <= i < |references| ==> getEntry(references[i].id) == Some(r.value[i])
    decreases |references|
  {
    if |references| == 0 then Some([])
    else
      match getEntry(references[0].id)
      case None => None
      case Some(entry) =>
        match FetchEntries(getEntry, references[1..])
        case None => None
        case Some(rest) =>
          assert forall i :: 1 <= i < |references| ==> references[i] == references[1..][i - 1];
          Some([entry] + rest)
  }

  /** What one run of `fetchPosters` settles on: the assembled posters, or
      `None` when an entry lookup or the assembly fails. */
  function FetchOutcome(getEntry: string -> Option<PosterEntry>,
                        getAsset: string -> Option<AssetEntry>,
                        references: seq<Link>): (r: Option<seq<Poster>>)
    ensures r.Some? <==> forall i :: 0 <= i < |references| ==>
      (getEntry(references[i].id).Some? && Assemblable(getAsset, getEntry(references[i].id).value))
    ensures r.Some? ==>
      && |r.value| == |references|
      && forall i :: 0 <= i < |references| ==>
           (getEntry(references[i].id).Some? &&
            AssembleOne(getAsset, getEntry(references[i].id).value) == Some(r.value[i]))
  {
    match FetchEntries(getEntry, references)
    case None => None
    case Some(entries) => BuildPosters(getAsset, entries)
  }

  /** A successful fetch yields one poster per reference, in reference order,
      each carrying the id of the entry fetched for that reference. */
  lemma FetchOutcomeOrder(getEntry: string -> Option<PosterEntry>,
                          getAsset: string -> Option<AssetEntry>,
                          references: seq<Link>)
    requires FetchOutcome(getEntry, getAsset, references).Some?
    ensures var posters := FetchOutcome(getEntry, getAsset, references).value;
      && |posters| == |references|
      && forall i :: 0 <= i < |references| ==>
           (getEntry(references[i].id).Some? && posters[i].id == getEntry(references[i].id).value.id)
  {
    var entries := FetchEntries(getEntry, references).value;
    var posters := FetchOutcome(getEntry, getAsset, references).value;
    forall i | 0 <= i < |references|
      ensures getEntry(references[i].id).Some? && posters[i].id == getEntry(references[i].id).value.id
    {
      assert AssembleOne(getAsset, entries[i]) == Some(posters[i]);
    }
  }

  /** The fetch fails exactly when some reference cannot be fetched or some
      fetched entry cannot be assembled. */
  lemma FetchOutcomeFails(getEntry: string -> Option<PosterEntry>,
                          getAsset: string -> Option<AssetEntry>,
                          references: seq<Link>)
    ensures FetchOutcome(getEntry, getAsset, references).None? <==>
      exists i :: 0 <= i < |references| &&
        (getEntry(references[i].id).None? || !Assemblable(getAsset, getEntry(references[i].id).value))
  {
    var fetched := FetchEntries(getEntry, references);
    if fetched.Some? {
      var entries := fetched.value;
      if BuildPosters(getAsset, entries).None? {
        var i :| 0 <= i < |entries| && !Assemblable(getAsset, entries[i]);
        assert getEntry(references[i].id) == Some(entries[i]);
      }
    } else {
      var i :| 0 <= i < |references| && getEntry(references[i].id).None?;
    }
  }

  /** The state behind `usePosters`. */
  class PostersFetcher {
    var state: FetchingState
    var data: seq<Poster>

    /** The hook's first render: Idle, with no posters. */
    constructor ()
      ensures state == Idle && data == []
    {
      state := Idle;
      data := [];
    }

    predicate IsIdle() reads this { state == Idle }
    predicate IsLoading() reads this { state == Loading }
    predicate IsSuccess() reads this { state == Success }
    predicate IsError() reads this { state == Error }

    /** The hook's result: one flag per state, exactly one of them set, and
        the current posters. */
    function Snapshot(): (r: UsePostersResult)
      reads this
      ensures ExactlyOneFlag(r)
      ensures r.isIdle == IsIdle() && r.isLoading == IsLoading()
      ensures r.isSuccess == IsSuccess() && r.isError == IsError()
      ensures r.data == data
    {
      UsePostersResult(state == Idle, state == Loading, state == Success, state == Error, data)
    }

    /** `setFetchingState(Loading)`: the posters shown so far stay. */
    method Start()
      modifies this
      ensures state == Loading && data == old(data)
    {
      state := Loading;
    }

    /** `setData(posters)` then `setFetchingState(Success)`. */
    method Resolve(posters: seq<Poster>)
      modifies this
      ensures state == Success && data == posters
    {
      data := posters;
      state := Success;
    }

    /** `setFetchingState(Error)`: the posters are not cleared. */
    method Reject()
      modifies this
      ensures state == Error && data == old(data)
    {
      state := Error;
    }

    /** `fetchPosters`: go to Loading, fetch the referenced entries, assemble
        them, and settle on Success with the new posters or on Error with the
        old ones. */
    method FetchPosters(getEntry: string -> Option<PosterEntry>,
                        getAsset: string -> Option<AssetEntry>,
                        references: seq<Link>)
      modifies this
      ensures FetchOutcome(getEntry, getAsset, references).Some? ==>
        state == Success && data == FetchOutcome(getEntry, getAsset, references).value
      ensures FetchOutcome(getEntry, getAsset, references).None? ==>
        state == Error && data == old(data)
    {
      Start();
      var entries := FetchEntries(getEntry, references);
      if entries.None? {
        Reject();
        return;
      }
      var posters := BuildPosters(getAsset, entries.value);
      if posters.None? {
        Reject();
      } else {
        Resolve(posters.value);
      }
    }
  }

  /** Scenario: from a fresh hook, a fetch whose lookups fail ends in Error and
      still shows no posters; a later successful fetch shows exactly its
      posters. */
  method FailThenSucceed(getEntry: string -> Option<PosterEntry>,
                         getAsset: string -> Option<AssetEntry>,
                         failing: seq<Link>, working: seq<Link>)
    returns (first: UsePostersResult, second: UsePostersResult)
    requires FetchOutcome(getEntry, getAsset, failing).None?
    requires FetchOutcome(getEntry, getAsset, working).Some?
    ensures first.isError && !first.isSuccess && first.data == []
    ensures second.isSuccess && !second.isLoading
    ensures second.data == FetchOutcome(getEntry, getAsset, working).value
  {
    var fetcher := new PostersFetcher();
    fetcher.FetchPosters(getEntry, getAsset, failing);
    first := fetcher.Snapshot();
    fetcher.FetchPosters(getEntry, getAsset, working);
    second := fetcher.Snapshot();
  }
}
