/**
 * `PortfolioViewModel` and the choice `PortfolioView` makes between its
 * placeholder and its list. The backend is not modelled: each call's
 * outcome is an input.
 */
module PortfolioViewModel {
  import opened Common
  import opened PortfolioModels

  /** `filter { $0.parentId == nil }`: the top-level nodes, in order. */
  function TopLevel(ps: seq<PortfolioResponse>): seq<PortfolioResponse> {
    if ps == [] then []
    else TopLevel(ps[..|ps| - 1]) + (if ps[|ps| - 1].parentId == None then [ps[|ps| - 1]] else [])
  }

  /** The filter keeps every top-level node as often as it occurs, and no child node. */
  lemma {:induction false} TopLevelCount(ps: seq<PortfolioResponse>, p: PortfolioResponse)
    ensures multiset(TopLevel(ps))[p] == if p.parentId == None then multiset(ps)[p] else 0
  {
    if ps != [] {
      assert ps == ps[..|ps| - 1] + [ps[|ps| - 1]];
      TopLevelCount(ps[..|ps| - 1], p);
    }
  }

  /** The filter keeps the order: filtering a concatenation filters each part. */
  lemma {:induction false} TopLevelAppend(a: seq<PortfolioResponse>, b: seq<PortfolioResponse>)
    ensures TopLevel(a + b) == TopLevel(a) + TopLevel(b)
  {
    if b == [] {
      assert a + b == a;
    } else {
      assert (a + b)[..|a + b| - 1] == a + b[..|b| - 1];
      TopLevelAppend(a, b[..|b| - 1]);
    }
  }

  /** A node is listed at the top level exactly when it was fetched and has no parent. */
  lemma TopLevelMembers(ps: seq<PortfolioResponse>, p: PortfolioResponse)
    ensures p in TopLevel(ps) <==> p in ps && p.parentId == None
  {
    TopLevelCount(ps, p);
  }

  /** `createNewPortfolioData`: the record of the three form fields. */
  function NewPortfolioData(title: string, content: string, parentId: Option<Uuid>): (r: PortfolioInsert)
    ensures r.title == title && r.content == content && r.parentId == parentId
  {
    PortfolioInsert(title, content, parentId)
  }

  /** `loadChildren`: the rows the query returns, or none when it throws. */
  function LoadChildren(outcome: Outcome<seq<PortfolioResponse>>): (r: seq<PortfolioResponse>)
    ensures outcome.Failure? ==> r == []
    ensures outcome.Success? ==> r == outcome.value
  {
    match outcome
    case Failure => []
    case Success(rows) => rows
  }

  /** What `PortfolioView` shows. */
  datatype Screen = Placeholder | List(items: seq<PortfolioResponse>)

  /** The placeholder when nothing was fetched, otherwise the list of top-level nodes. */
  function Display(portfolios: seq<PortfolioResponse>, topPortfolios: seq<PortfolioResponse>): (r: Screen)
    ensures r == Placeholder <==> portfolios == []
    ensures r.List? ==> r.items == topPortfolios
  {
    if portfolios == [] then Placeholder else List(topPortfolios)
  }

  class ViewModel {
    var portfolios: seq<PortfolioResponse>
    var topPortfolios: seq<PortfolioResponse>
    var createdTitle: string
    var createdContent: string
    var createdParentId: Option<Uuid>

    /** `topPortfolios` is always the top-level part of `portfolios`. */
    ghost predicate Valid()
      reads this
    {
      topPortfolios == TopLevel(portfolios)
    }

    constructor()
      ensures portfolios == [] && topPortfolios == []
      ensures createdTitle == "" && createdContent == "" && createdParentId == None
      ensures Valid()
    {
      portfolios := [];
      topPortfolios := [];
      createdTitle := "";
      createdContent := "";
      createdParentId := None;
    }

    /** `fetchPortfolios`: on success both lists are replaced; on failure nothing changes. */
    method FetchPortfolios(outcome: Outcome<seq<PortfolioResponse>>)
      modifies this`portfolios, this`topPortfolios
      ensures outcome.Success? ==> portfolios == outcome.value && topPortfolios == TopLevel(outcome.value)
      ensures outcome.Failure? ==> portfolios == old(portfolios) && topPortfolios == old(topPortfolios)
      ensures old(Valid()) ==> Valid()
      ensures outcome.Success? ==> Valid()
    {
      if outcome.Success? {
        portfolios := outcome.value;
        topPortfolios := TopLevel(portfolios);
      }
    }

    /** `clearField`: empties the form. */
    method ClearField()
      modifies this`createdTitle, this`createdContent, this`createdParentId
      ensures createdTitle == "" && createdContent == "" && createdParentId == None
    {
      createdTitle := "";
      createdContent := "";
      createdParentId := None;
    }

    /**
     * `addPortfolio`: sends the form as a new node; if the insert succeeds,
     * refetches and then clears the form; if it throws, nothing changes.
     * `request` is the record sent.
     */
    method AddPortfolio(inserted: bool, fetched: Outcome<seq<PortfolioResponse>>)
      returns (request: PortfolioInsert)
      modifies this
      ensures request == NewPortfolioData(old(createdTitle), old(createdContent), old(createdParentId))
      ensures !inserted ==> portfolios == old(portfolios) && topPortfolios == old(topPortfolios)
      ensures !inserted ==> createdTitle == old(createdTitle) && createdContent == old(createdContent)
      ensures !inserted ==> createdParentId == old(createdParentId)
      ensures inserted && fetched.Success? ==> portfolios == fetched.value && topPortfolios == TopLevel(fetched.value)
      ensures inserted && fetched.Failure? ==> portfolios == old(portfolios) && topPortfolios == old(topPortfolios)
      ensures inserted ==> createdTitle == "" && createdContent == "" && createdParentId == None
      ensures old(Valid()) ==> Valid()
    {
      request := NewPortfolioData(createdTitle, createdContent, createdParentId);
      if !inserted {
        return;
      }
      FetchPortfolios(fetched);
      ClearField();
    }
  }
}
