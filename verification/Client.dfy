/** The client's walk over the page tokens (`HubClient.list_all_tasks` in `client.py`). */
module Client {
  import opened Store
  import opened Tasks
  import opened Wrappers

  /** What one request gives back: a page, or an error the client raises. */
  datatype Reply = Served(page: Page) | Fault(message: string)

  /** What the client gets of the hub's answer. */
  function ReplyTo(answer: Result<Page, ListError>): Reply {
    match answer
    case Ok(page) => Served(page)
    case Err(_) => Fault("Invalid page token")
  }

  /** The hub as the client sees it: the reply to the k-th request of the walk, for its token. */
  type Server = (nat, string) -> Reply

  datatype Listing = Listing(tasks: seq<Task>, total: int, pages: nat, incomplete: bool)

  datatype Outcome = Listed(listing: Listing) | Raised(message: string)

  const DEFAULT_CLIENT_PAGE_SIZE: nat := 100
  const DEFAULT_MAX_PAGES: int := 100

  /** The token the walk sends with its k-th request. */
  function TokenAt(server: Server, k: nat): string
    decreases k, 0
  {
    if k == 0 then ""
    else match ReplyAt(server, k - 1)
      case Served(page) => page.next
      case Fault(_) => ""
  }

  function ReplyAt(server: Server, k: nat): Reply
    decreases k, 1
  {
    server(k, TokenAt(server, k))
  }

  function TasksAt(server: Server, k: nat): seq<Task> {
    match ReplyAt(server, k)
    case Served(page) => page.tasks
    case Fault(_) => []
  }

  /** Everything the first `n` pages hand out, in order. */
  function Gathered(server: Server, n: nat): seq<Task> {
    if n == 0 then [] else Gathered(server, n - 1) + TasksAt(server, n - 1)
  }

  /** After `n` pages there is no next one, or it was asked for before, or the cap is reached. */
  ghost predicate MustStop(server: Server, n: nat, maxPages: int) {
    || TokenAt(server, n) == ""
    || (exists j | 0 < j < n :: TokenAt(server, j) == TokenAt(server, n))
    || n >= maxPages
  }

  /** After `n` pages the walk asks for another one. */
  ghost predicate GoesOn(server: Server, n: nat, maxPages: int) {
    n > 0 && ReplyAt(server, n - 1).Served? && !MustStop(server, n, maxPages)
  }

  ghost predicate GoneOn(server: Server, requests: nat, maxPages: int) {
    forall k | 1 <= k < requests :: GoesOn(server, k, maxPages)
  }

  /** A walk that made `requests` requests and ended with `o`. */
  ghost predicate Walk(server: Server, maxPages: int, requests: nat, o: Outcome) {
    && 1 <= requests
    && GoneOn(server, requests, maxPages)
    && match ReplyAt(server, requests - 1)
       case Fault(message) => o == Raised(message)
       case Served(page) =>
         && MustStop(server, requests, maxPages)
         && o == Listed(Listing(Gathered(server, requests), page.total, requests, page.next != ""))
  }

  method ListAllTasks(server: Server, maxPages: int) returns (o: Outcome, requests: nat)
    ensures Walk(server, maxPages, requests, o)
  {
    var tasks: seq<Task>, seen: set<string> := [], {};
    var token, total, incomplete := "", 0, false;
    requests := 0;
    while true
      invariant token == TokenAt(server, requests)
      invariant tasks == Gathered(server, requests)
      invariant seen == set j | 0 < j <= requests :: TokenAt(server, j)
      invariant forall k | 1 <= k <= requests :: GoesOn(server, k, maxPages)
      invariant requests > 0 ==> requests < maxPages
      decreases maxPages - requests
    {
      var reply := server(requests, token);
      requests := requests + 1;
      if reply.Fault? {
        return Raised(reply.message), requests;
      }
      tasks := tasks + reply.page.tasks;
      total := reply.page.total;
      token := reply.page.next;
      if token == "" {
        break;
      }
      if token in seen || requests >= maxPages {
        incomplete := true;
        break;
      }
      assert forall j | 0 < j < requests :: TokenAt(server, j) in seen;
      seen := seen + {token};
    }
    o := Listed(Listing(tasks, total, requests, incomplete));
  }

  /**
   Whatever the hub answers, the walk is bounded by the cap, returns exactly the pages it read,
   and calls itself complete only when the last page said nothing is left.
   */
  lemma WalkIsBounded(server: Server, maxPages: int, requests: nat, o: Outcome)
    requires Walk(server, maxPages, requests, o)
    ensures requests <= if maxPages < 1 then 1 else maxPages
    ensures o.Listed? ==>
              && o.listing.pages == requests
              && o.listing.tasks == Gathered(server, requests)
              && (!o.listing.incomplete <==> TokenAt(server, requests) == "")
  {
    if requests > 1 {
      assert GoesOn(server, requests - 1, maxPages);
    }
  }

  /** What a walk ends with, from its last reply. */
  lemma WalkSays(server: Server, maxPages: int, requests: nat, o: Outcome)
    requires Walk(server, maxPages, requests, o)
    ensures o.Raised? <==> ReplyAt(server, requests - 1).Fault?
    ensures o.Listed? ==>
              && o.listing.tasks == Gathered(server, requests)
              && o.listing.total == ReplyAt(server, requests - 1).page.total
              && (!o.listing.incomplete <==> TokenAt(server, requests) == "")
  {
  }

  lemma WalkGoesOn(server: Server, maxPages: int, requests: nat, k: nat)
    requires GoneOn(server, requests, maxPages) && 0 < k < requests
    ensures ReplyAt(server, k - 1).Served? && TokenAt(server, k) != ""
  {
    assert GoesOn(server, k, maxPages);
  }

  lemma WalkStops(server: Server, maxPages: int, requests: nat, o: Outcome)
    requires Walk(server, maxPages, requests, o) && o.Listed?
    ensures MustStop(server, requests, maxPages)
  {
  }

  lemma WalkIsCapped(server: Server, maxPages: int, requests: nat, o: Outcome)
    requires Walk(server, maxPages, requests, o) && maxPages >= 1
    ensures requests <= maxPages
  {
    WalkIsBounded(server, maxPages, requests, o);
  }
}
