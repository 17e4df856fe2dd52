/**
 * The brand dashboard: the `{brands, loading}` reducer, the brand fetch that re-runs whenever
 * the company filter or the refresh key changes and ignores the replies of superseded runs,
 * the single-slot delete flow, and the client-side search.
 *
 * The page's asynchronous replies are explicit events. Every run of the brand fetch gets the
 * next generation number; the `cancelled` flag of a run is set exactly when a later run has
 * started, so "not cancelled" is "its generation is the current one".
 */
module DashboardPage {
  import opened Wrappers
  import opened Text
  import opened Seqs
  import opened Records
  import opened ClientCommon

  /** The reducer's state. */
  datatype FetchState = FetchState(brands: seq<BrandDto>, loading: bool)

  /** `initialFetch`. */
  const InitialFetch := FetchState([], true)

  /** The reducer's actions; `OtherAction` stands for any other `type`. */
  datatype Action = FetchStart | FetchSuccess(payload: seq<BrandDto>) | FetchError | OtherAction

  /**
   * `brandsReducer`: only a success replaces the list (an empty payload too); a failure keeps
   * the list it had; `loading` is set by a start and cleared by a success or a failure.
   */
  function Reduce(s: FetchState, a: Action): (r: FetchState)
    ensures a.FetchSuccess? ==> r.brands == a.payload
    ensures !a.FetchSuccess? ==> r.brands == s.brands
    ensures r.loading <==> a.FetchStart? || (a.OtherAction? && s.loading)
    ensures a.OtherAction? ==> r == s
  {
    match a
    case FetchStart => s.(loading := true)
    case FetchSuccess(payload) => FetchState(payload, false)
    case FetchError => s.(loading := false)
    case OtherAction => s
  }

  /** The settled `getAllBrands` call of fetch run `generation`. */
  datatype BrandsResponse = BrandsResponse(generation: nat, outcome: ApiOutcome<seq<BrandDto>>)

  /**
   * What a reply does to the reducer's state when run `current` is the latest: a reply of an
   * earlier run is dropped; the current run's reply is dispatched as a success or a failure.
   */
  function Deliver(s: FetchState, current: nat, r: BrandsResponse): (t: FetchState)
    ensures r.generation != current ==> t == s
    ensures r.generation == current && r.outcome.Succeeded? ==> t == FetchState(r.outcome.data, false)
    ensures r.generation == current && r.outcome.Failed? ==> t == FetchState(s.brands, false)
  {
    if r.generation != current then s
    else match r.outcome
      case Succeeded(data) => Reduce(s, FetchSuccess(data))
      case Failed(_) => Reduce(s, FetchError)
  }

  /** The state after the replies `rs` arrive, in order, while run `current` is the latest. */
  function Settle(s: FetchState, current: nat, rs: seq<BrandsResponse>): (t: FetchState)
    ensures t.brands == s.brands || exists i :: 0 <= i < |rs| && rs[i] == BrandsResponse(current, Succeeded(t.brands))
  {
    if rs == [] then s
    else
      var t := Deliver(Settle(s, current, rs[..|rs| - 1]), current, rs[|rs| - 1]);
      assert forall i :: 0 <= i < |rs| - 1 ==> rs[..|rs| - 1][i] == rs[i];
      t
  }

  /** The list carried by the last successful reply of run `current` among `rs`, if there is one. */
  function LastSuccess(rs: seq<BrandsResponse>, current: nat): (r: Option<seq<BrandDto>>)
    ensures r.Some? ==> exists i :: 0 <= i < |rs| && rs[i] == BrandsResponse(current, Succeeded(r.value))
    ensures r.None? ==> forall i :: 0 <= i < |rs| && rs[i].generation == current ==> rs[i].outcome.Failed?
  {
    if rs == [] then None
    else
      var last := rs[|rs| - 1];
      if last.generation == current && last.outcome.Succeeded? then Some(last.outcome.data)
      else
        var r := LastSuccess(rs[..|rs| - 1], current);
        assert forall i :: 0 <= i < |rs| - 1 ==> rs[..|rs| - 1][i] == rs[i];
        r
  }

  /** Replies of superseded runs change nothing, however many arrive. */
  lemma {:induction false} SettleIgnoresStale(s: FetchState, current: nat, rs: seq<BrandsResponse>)
    requires forall i :: 0 <= i < |rs| ==> rs[i].generation != current
    ensures Settle(s, current, rs) == s
  {
    if rs != [] {
      SettleIgnoresStale(s, current, rs[..|rs| - 1]);
    }
  }

  /**
   * The committed list comes from the latest run: it is the list of that run's last
   * successful reply, or, when there is none, the list held before the run started.
   */
  lemma {:induction false} SettleCommitsLatestRun(s: FetchState, current: nat, rs: seq<BrandsResponse>)
    ensures Settle(s, current, rs).brands == LastSuccess(rs, current).GetOr(s.brands)
  {
    if rs != [] {
      SettleCommitsLatestRun(s, current, rs[..|rs| - 1]);
    }
  }

  /** The spinner stays up until a reply of the latest run arrives. */
  lemma {:induction false} SettleLoading(s: FetchState, current: nat, rs: seq<BrandsResponse>)
    ensures Settle(s, current, rs).loading <==> s.loading && forall i :: 0 <= i < |rs| ==> rs[i].generation != current
  {
    if rs != [] {
      var init := rs[..|rs| - 1];
      SettleLoading(s, current, init);
      assert forall i :: 0 <= i < |init| ==> init[i] == rs[i];
    }
  }

  /** The search box's rule: the name or the company name contains the text, ignoring case. */
  predicate Matches(b: BrandDto, query: string) {
    Contains(Lower(b.brandName), Lower(query)) || Contains(Lower(b.chainName), Lower(query))
  }

  /** `filtered`: the brands that match the search text, in the order of the list. */
  function Search(brands: seq<BrandDto>, query: string): (r: seq<BrandDto>)
    ensures forall b :: b in r <==> b in brands && Matches(b, query)
  {
    Filter(brands, b => Matches(b, query))
  }

  /** The search keeps the order of the list. */
  lemma SearchKeepsOrder(brands: seq<BrandDto>, query: string)
    ensures IsSubsequence(Search(brands, query), brands)
  {
    FilterKeepsOrder(brands, b => Matches(b, query));
  }

  /** An empty search shows every brand. */
  lemma EmptySearchKeepsAll(brands: seq<BrandDto>)
    ensures Search(brands, "") == brands
  {
    forall i | 0 <= i < |brands| ensures Matches(brands[i], "") {
      ContainsEmpty(Lower(brands[i].brandName));
    }
  }

  /** Searching the shown brands again for the same text shows the same brands. */
  lemma SearchIdempotent(brands: seq<BrandDto>, query: string)
    ensures Search(Search(brands, query), query) == Search(brands, query)
  {
    var shown := Search(brands, query);
    assert forall i :: 0 <= i < |shown| ==> shown[i] in shown;
  }

  /** The Clear button is shown when a company is selected or a search text is typed. */
  predicate ClearOffered(selectedChain: string, search: string): (u: bool)
    ensures u <==> ChainParam(selectedChain).Some? || search != []
  {
    selectedChain != [] || search != []
  }

  /** The `chainId` parameter of `getAllBrands(selectedChain || null)`. */
  function ChainParam(selectedChain: string): (p: Option<string>)
    ensures p.None? <==> selectedChain == []
    ensures p.Some? ==> p.value == selectedChain
  {
    if selectedChain == [] then None else Some(selectedChain)
  }

  const LoadCompaniesFailed := "Failed to load companies"
  const LoadBrandsFailed := "Failed to load brands"
  const DeleteFailed := "Failed to delete brand"

  /** The toast after a successful delete. */
  function DeletedText(brandName: string): string {
    "Brand \"" + brandName + "\" deleted successfully"
  }

  /**
   * The page's state. `brandRequests` logs the chain parameter of every brand fetch run, so the
   * current generation is its last index; `deleteRequests` logs the brands whose delete was
   * sent, and `deletesSettled` the indices of those whose reply has arrived.
   */
  class Dashboard {
    var fetch: FetchState
    var chains: seq<ChainDto>
    var selectedChain: string
    var search: string
    var deletingId: Option<nat>
    var refreshKey: nat
    var brandRequests: seq<Option<string>>
    var deleteRequests: seq<BrandDto>
    var deletesSettled: set<nat>
    var toasts: seq<Toast>

    /** Some run has started, and the latest one asked for the company now selected. */
    predicate Valid()
      reads this
    {
      && brandRequests != []
      && brandRequests[|brandRequests| - 1] == ChainParam(selectedChain)
    }

    /** The generation of the latest brand fetch run. */
    function Generation(): nat
      reads this
      requires Valid()
    {
      |brandRequests| - 1
    }

    /** The rows the table shows. */
    function Shown(): seq<BrandDto>
      reads this
    {
      Search(fetch.brands, search)
    }

    /** Mounting: the initial state, and the first brand fetch run for all companies. */
    constructor ()
      ensures Valid() && Generation() == 0
      ensures fetch == InitialFetch && chains == [] && selectedChain == [] && search == []
      ensures deletingId == None && refreshKey == 0
      ensures brandRequests == [None] && deleteRequests == [] && deletesSettled == {} && toasts == []
    {
      fetch := Reduce(InitialFetch, FetchStart);
      chains := [];
      selectedChain := [];
      search := [];
      deletingId := None;
      refreshKey := 0;
      brandRequests := [None];
      deleteRequests := [];
      deletesSettled := {};
      toasts := [];
    }

    /** A new run of the brand fetch: earlier runs are cancelled, the spinner shows, the request goes out. */
    method StartBrandsFetch()
      modifies this
      requires brandRequests != []
      ensures Valid() && Generation() == old(|brandRequests|)
      ensures fetch == FetchState(old(fetch.brands), true)
      ensures brandRequests == old(brandRequests) + [ChainParam(selectedChain)]
      ensures chains == old(chains) && selectedChain == old(selectedChain) && search == old(search)
      ensures deletingId == old(deletingId) && refreshKey == old(refreshKey)
      ensures deleteRequests == old(deleteRequests) && deletesSettled == old(deletesSettled) && toasts == old(toasts)
    {
      fetch := Reduce(fetch, FetchStart);
      brandRequests := brandRequests + [ChainParam(selectedChain)];
    }

    /** The companies for the filter arrive, or their failure is reported. */
    method OnChainsResponse(outcome: ApiOutcome<seq<ChainDto>>)
      modifies this
      requires Valid()
      ensures Valid()
      ensures outcome.Succeeded? ==> chains == outcome.data && toasts == old(toasts)
      ensures outcome.Failed? ==> chains == old(chains) && toasts == old(toasts) + [ErrorToast(LoadCompaniesFailed)]
      ensures fetch == old(fetch) && selectedChain == old(selectedChain) && search == old(search)
      ensures deletingId == old(deletingId) && refreshKey == old(refreshKey) && brandRequests == old(brandRequests)
      ensures deleteRequests == old(deleteRequests) && deletesSettled == old(deletesSettled)
    {
      match outcome
      case Succeeded(data) => chains := data;
      case Failed(_) => toasts := toasts + [ErrorToast(LoadCompaniesFailed)];
    }

    /** A reply of run `r.generation` arrives: only the latest run's reply is dispatched, and only its failure is reported. */
    method OnBrandsResponse(r: BrandsResponse)
      modifies this
      requires Valid() && r.generation <= Generation()
      ensures Valid() && Generation() == old(Generation())
      ensures fetch == Deliver(old(fetch), Generation(), r)
      ensures r.generation == Generation() && r.outcome.Failed? ==> toasts == old(toasts) + [ErrorToast(LoadBrandsFailed)]
      ensures r.generation != Generation() || r.outcome.Succeeded? ==> toasts == old(toasts)
      ensures chains == old(chains) && selectedChain == old(selectedChain) && search == old(search)
      ensures deletingId == old(deletingId) && refreshKey == old(refreshKey) && brandRequests == old(brandRequests)
      ensures deleteRequests == old(deleteRequests) && deletesSettled == old(deletesSettled)
    {
      if r.generation == Generation() {
        match r.outcome
        case Succeeded(data) =>
          fetch := Reduce(fetch, FetchSuccess(data));
        case Failed(_) =>
          fetch := Reduce(fetch, FetchError);
          toasts := toasts + [ErrorToast(LoadBrandsFailed)];
      }
    }

    /** The company filter changes; the brand fetch re-runs only when the value is a new one. */
    method SelectChain(value: string)
      modifies this
      requires Valid()
      ensures Valid() && selectedChain == value
      ensures value != old(selectedChain) ==> brandRequests == old(brandRequests) + [ChainParam(value)]
                                              && fetch == FetchState(old(fetch.brands), true)
      ensures value == old(selectedChain) ==> brandRequests == old(brandRequests) && fetch == old(fetch)
      ensures chains == old(chains) && search == old(search)
      ensures deletingId == old(deletingId) && refreshKey == old(refreshKey)
      ensures deleteRequests == old(deleteRequests) && deletesSettled == old(deletesSettled) && toasts == old(toasts)
    {
      if value != selectedChain {
        selectedChain := value;
        StartBrandsFetch();
      }
    }

    /** Typing in the search box filters the held list and fetches nothing. */
    method SetSearch(value: string)
      modifies this
      requires Valid()
      ensures Valid() && search == value && Shown() == Search(fetch.brands, value)
      ensures fetch == old(fetch) && chains == old(chains) && selectedChain == old(selectedChain)
      ensures deletingId == old(deletingId) && refreshKey == old(refreshKey) && brandRequests == old(brandRequests)
      ensures deleteRequests == old(deleteRequests) && deletesSettled == old(deletesSettled) && toasts == old(toasts)
    {
      search := value;
    }

    /** The Clear button empties both filters; the brand fetch re-runs only if a company was selected. */
    method ClearFilters()
      modifies this
      requires Valid() && ClearOffered(selectedChain, search)
      ensures Valid() && selectedChain == [] && search == [] && !ClearOffered(selectedChain, search)
      ensures old(selectedChain) != [] ==> brandRequests == old(brandRequests) + [None]
                                           && fetch == FetchState(old(fetch.brands), true)
      ensures old(selectedChain) == [] ==> brandRequests == old(brandRequests) && fetch == old(fetch)
      ensures chains == old(chains) && deletingId == old(deletingId) && refreshKey == old(refreshKey)
      ensures deleteRequests == old(deleteRequests) && deletesSettled == old(deletesSettled) && toasts == old(toasts)
    {
      SelectChain([]);
      search := [];
    }

    /**
     * The Delete button: a declined confirmation does nothing; a confirmed one marks the brand
     * as being deleted (the one slot) and sends the delete. The button of the brand being
     * deleted is disabled, so it cannot be pressed again meanwhile.
     */
    method HandleDelete(brand: BrandDto, confirmed: bool)
      modifies this
      requires Valid() && deletingId != Some(brand.brandId)
      ensures Valid()
      ensures !confirmed ==> deletingId == old(deletingId) && deleteRequests == old(deleteRequests)
      ensures confirmed ==> deletingId == Some(brand.brandId) && deleteRequests == old(deleteRequests) + [brand]
      ensures fetch == old(fetch) && chains == old(chains) && selectedChain == old(selectedChain)
      ensures search == old(search) && refreshKey == old(refreshKey) && brandRequests == old(brandRequests)
      ensures deletesSettled == old(deletesSettled) && toasts == old(toasts)
    {
      if confirmed {
        deletingId := Some(brand.brandId);
        deleteRequests := deleteRequests + [brand];
      }
    }

    /**
     * The reply to delete request `k` arrives. Whatever the outcome the slot is emptied, even
     * when another delete is still on its way. A success is announced and bumps the refresh
     * key, which re-runs the brand fetch; a failure shows the server's message or a fallback.
     */
    method OnDeleteSettled(k: nat, outcome: ApiOutcome<()>)
      modifies this
      requires Valid() && k < |deleteRequests| && k !in deletesSettled
      ensures Valid() && deletingId == None && deletesSettled == old(deletesSettled) + {k}
      ensures outcome.Succeeded? ==>
                && refreshKey == old(refreshKey) + 1
                && toasts == old(toasts) + [SuccessToast(DeletedText(old(deleteRequests[k]).brandName))]
                && brandRequests == old(brandRequests) + [ChainParam(selectedChain)]
                && fetch == FetchState(old(fetch.brands), true)
      ensures outcome.Failed? ==>
                && refreshKey == old(refreshKey)
                && toasts == old(toasts) + [ErrorToast(ErrorText(outcome.message, DeleteFailed))]
                && brandRequests == old(brandRequests)
                && fetch == old(fetch)
      ensures chains == old(chains) && selectedChain == old(selectedChain) && search == old(search)
      ensures deleteRequests == old(deleteRequests)
    {
      var brand := deleteRequests[k];
      deletingId := None;
      deletesSettled := deletesSettled + {k};
      match outcome
      case Succeeded(_) =>
        toasts := toasts + [SuccessToast(DeletedText(brand.brandName))];
        refreshKey := refreshKey + 1;
        StartBrandsFetch();
      case Failed(message) =>
        toasts := toasts + [ErrorToast(ErrorText(message, DeleteFailed))];
    }
  }
}
