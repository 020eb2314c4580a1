/**
 * `list_objects_in_bucket`: pages of the bucket listing are requested until
 * a response is not truncated. The listing service is an oracle from the
 * continuation token sent (or none) to the response; the loop, which the
 * code runs with `while True`, is given a budget of requests.
 */
module Fetch {
  import opened Wrappers
  import opened Storage

  /**
   * One `list_objects_v2` response: `Contents`, `IsTruncated` and
   * `NextContinuationToken`, each possibly absent.
   */
  datatype Page = Page(contents: Option<seq<ObjectRecord>>, isTruncated: Option<bool>, nextToken: Option<string>)

  /** `response.get("IsTruncated")` is truthy. */
  predicate Truncated(p: Page)
  {
    p.isTruncated == Some(true)
  }

  /** The records a page contributes: none when `Contents` is absent. */
  function Contents(p: Page): (records: seq<ObjectRecord>)
  {
    if p.contents.Some? then p.contents.value else []
  }

  /** The token actually sent: only a truthy (present, non-empty) token is passed. */
  function Request(token: Option<string>): (sent: Option<string>)
    ensures sent.Some? <==> token.Some? && token.value != []
    ensures sent.Some? ==> sent == token
  {
    if token.Some? && token.value != [] then token else None
  }

  /** The pages received starting with the request for `token`, or `None` when the budget runs out first. */
  function Pages(service: Option<string> -> Page, token: Option<string>, fuel: nat): (r: Option<seq<Page>>)
    ensures r.Some? ==> |r.value| <= fuel
    decreases fuel
  {
    if fuel == 0 then None
    else
      var p := service(Request(token));
      if !Truncated(p) then Some([p])
      else
        match Pages(service, p.nextToken, fuel - 1)
        case None => None
        case Some(rest) => Some([p] + rest)
  }

  /** All records of `pages`, page by page. */
  function Flatten(pages: seq<Page>): (records: seq<ObjectRecord>)
    ensures forall j, x :: 0 <= j < |pages| && x in Contents(pages[j]) ==> x in records
    ensures forall x :: x in records ==> exists j :: 0 <= j < |pages| && x in Contents(pages[j])
    decreases |pages|
  {
    if pages == [] then [] else Contents(pages[0]) + Flatten(pages[1..])
  }

  /** The records of a complete listing, or `None` when the budget runs out. */
  function Listing(service: Option<string> -> Page, fuel: nat): (listed: Option<seq<ObjectRecord>>)
    ensures listed.Some? <==> Pages(service, None, fuel).Some?
    ensures listed.Some? ==>
              forall x :: x in listed.value <==>
                exists j :: 0 <= j < |Pages(service, None, fuel).value| && x in Contents(Pages(service, None, fuel).value[j])
  {
    match Pages(service, None, fuel)
    case None => None
    case Some(pages) => Some(Flatten(pages))
  }

  /**
   * The loop as the code writes it: request a page, extend the result with
   * its contents, and go on with the page's token while it is truncated.
   */
  method ListObjectsInBucket(service: Option<string> -> Page, fuel: nat) returns (r: Option<seq<ObjectRecord>>)
    ensures r == Listing(service, fuel)
  {
    var allObjects: seq<ObjectRecord> := [];
    var token: Option<string> := None;
    var left := fuel;
    ghost var seen: seq<Page> := [];
    PrependAppend([], [], Pages(service, None, fuel));
    while true
      invariant allObjects == Flatten(seen)
      invariant Pages(service, None, fuel) == Prepend(seen, Pages(service, token, left))
      decreases left
    {
      if left == 0 {
        return None;
      }
      var response := service(Request(token));
      FlattenAppend(seen, [response]);
      assert Flatten([response]) == Contents(response);
      PrependAppend(seen, [response], Pages(service, response.nextToken, left - 1));
      allObjects := allObjects + Contents(response);
      seen := seen + [response];
      left := left - 1;
      if Truncated(response) {
        token := response.nextToken;
      } else {
        break;
      }
    }
    r := Some(allObjects);
  }

  /** `pages` received so far, followed by the rest of the listing. */
  function Prepend(pages: seq<Page>, rest: Option<seq<Page>>): (all: Option<seq<Page>>)
  {
    match rest
    case None => None
    case Some(more) => Some(pages + more)
  }

  /** Prepending in two steps is prepending the concatenation, and prepending nothing changes nothing. */
  lemma PrependAppend(a: seq<Page>, b: seq<Page>, rest: Option<seq<Page>>)
    ensures Prepend(a, Prepend(b, rest)) == Prepend(a + b, rest)
    ensures Prepend([], rest) == rest
  {
    if rest.Some? {
      assert a + (b + rest.value) == (a + b) + rest.value;
      assert [] + rest.value == rest.value;
    }
  }

  lemma {:induction false} FlattenAppend(a: seq<Page>, b: seq<Page>)
    ensures Flatten(a + b) == Flatten(a) + Flatten(b)
    decreases |a|
  {
    if a == [] {
      assert a + b == b;
    } else {
      assert (a + b)[1..] == a[1..] + b;
      FlattenAppend(a[1..], b);
    }
  }

  /**
   * A complete listing ends at its only untruncated page, and each later
   * request carries the token of the page before it.
   */
  lemma {:induction false} PagesChain(service: Option<string> -> Page, token: Option<string>, fuel: nat)
    requires Pages(service, token, fuel).Some?
    ensures var pages := Pages(service, token, fuel).value;
            pages != [] &&
            pages[0] == service(Request(token)) &&
            !Truncated(pages[|pages| - 1]) &&
            (forall j :: 0 <= j < |pages| - 1 ==> Truncated(pages[j])) &&
            forall j :: 0 < j < |pages| ==> pages[j] == service(Request(pages[j - 1].nextToken))
    decreases fuel
  {
    var p := service(Request(token));
    if Truncated(p) {
      PagesChain(service, p.nextToken, fuel - 1);
      var rest := Pages(service, p.nextToken, fuel - 1).value;
      assert Pages(service, token, fuel).value == [p] + rest;
    }
  }

  /** A larger budget does not change a listing that completed. */
  lemma {:induction false} MoreFuelSameListing(service: Option<string> -> Page, token: Option<string>, fuel: nat, more: nat)
    requires fuel <= more
    requires Pages(service, token, fuel).Some?
    ensures Pages(service, token, more) == Pages(service, token, fuel)
    decreases fuel
  {
    var p := service(Request(token));
    if Truncated(p) {
      MoreFuelSameListing(service, p.nextToken, fuel - 1, more - 1);
    }
  }

  /**
   * A truncated response whose token is absent or empty sends the next
   * request without a token, which restarts the listing from its first
   * page: if the first page is such a response the loop never ends.
   */
  lemma {:induction false} TokenlessTruncationNeverEnds(service: Option<string> -> Page, fuel: nat)
    requires Truncated(service(None))
    requires Request(service(None).nextToken) == None
    ensures Pages(service, None, fuel) == None
    decreases fuel
  {
    if fuel > 0 {
      TokenlessTruncationNeverEnds(service, fuel - 1);
      assert Pages(service, service(None).nextToken, fuel - 1) == Pages(service, None, fuel - 1) by {
        RequestDecides(service, service(None).nextToken, None, fuel - 1);
      }
    }
  }

  /** After page `j` of a completed chain, the chain goes on as the chain of page `j`'s token. */
  lemma {:induction false} PagesSuffix(service: Option<string> -> Page, token: Option<string>, fuel: nat, j: nat)
    requires Pages(service, token, fuel).Some?
    requires j < |Pages(service, token, fuel).value| - 1
    ensures j + 1 < fuel
    ensures Pages(service, Pages(service, token, fuel).value[j].nextToken, fuel - (j + 1)) ==
            Some(Pages(service, token, fuel).value[j + 1..])
    decreases fuel
  {
    var pages := Pages(service, token, fuel).value;
    var p := service(Request(token));
    var rest := Pages(service, p.nextToken, fuel - 1).value;
    assert pages == [p] + rest;
    if j > 0 {
      PagesSuffix(service, p.nextToken, fuel - 1, j - 1);
      assert rest[j - 1] == pages[j] && rest[j..] == pages[j + 1..];
    }
  }

  /**
   * In a listing that completes, every page but the last carries a truthy
   * token: a truncated page whose token is absent or empty, wherever it
   * occurs, sends the next request without a token and so restarts the
   * listing, which then never ends.
   */
  lemma TokensTruthyUntilLast(service: Option<string> -> Page, fuel: nat, j: nat)
    requires Pages(service, None, fuel).Some?
    requires j < |Pages(service, None, fuel).value| - 1
    ensures Request(Pages(service, None, fuel).value[j].nextToken).Some?
  {
    var pages := Pages(service, None, fuel).value;
    if Request(pages[j].nextToken) == None {
      PagesSuffix(service, None, fuel, j);
      RequestDecides(service, pages[j].nextToken, None, fuel - (j + 1));
      MoreFuelSameListing(service, None, fuel - (j + 1), fuel);
      assert false;
    }
  }

  /** Only the token actually sent matters. */
  lemma RequestDecides(service: Option<string> -> Page, t1: Option<string>, t2: Option<string>, fuel: nat)
    requires Request(t1) == Request(t2)
    ensures Pages(service, t1, fuel) == Pages(service, t2, fuel)
  {
  }
}
