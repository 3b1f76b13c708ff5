/**
  The routing service's rule for deciding whether a link target is the active
  route. A target may name a resource whose chain ends in a default child (the
  `resource` -> `resource.index` normalisation); when the caller supplies more
  contexts than the named route can consume, the check is made against the
  leaf of the chain instead.
 */
module Routing {

  /** One link of the recognizer's handler chain: a route name and the names of its dynamic segments. */
  datatype HandlerInfo = HandlerInfo(handler: string, names: seq<string>)

  /** The number of dynamic segments of a chain, summed from root to leaf. */
  function SegmentCount(chain: seq<HandlerInfo>): nat
  {
    if chain == [] then 0
    else SegmentCount(chain[..|chain| - 1]) + |chain[|chain| - 1].names|
  }

  /** A longer prefix of a chain never has fewer dynamic segments. */
  lemma {:induction false} SegmentCountMonotone(chain: seq<HandlerInfo>, i: nat, j: nat)
    requires i <= j <= |chain|
    ensures SegmentCount(chain[..i]) <= SegmentCount(chain[..j])
  {
    if i < j {
      SegmentCountMonotone(chain, i, j - 1);
      assert chain[..j][..j - 1] == chain[..j - 1];
    }
  }

  /**
    The index of the first handler named `target`, or `|chain|` when no
    handler has that name.
   */
  function FirstMatch(target: string, chain: seq<HandlerInfo>): (k: nat)
    ensures k <= |chain|
    ensures k < |chain| ==> chain[k].handler == target
    ensures forall j :: 0 <= j < k ==> chain[j].handler != target
  {
    if chain == [] then 0
    else if chain[0].handler == target then 0
    else 1 + FirstMatch(target, chain[1..])
  }

  /**
    The number of contexts a route named `target` accepts: the dynamic
    segments of the chain up to and including the first handler so named, or
    of the whole chain when none is.
   */
  function MaximumContexts(target: string, chain: seq<HandlerInfo>): nat
  {
    var k := FirstMatch(target, chain);
    if k < |chain| then SegmentCount(chain[..k + 1]) else SegmentCount(chain)
  }

  /** With no handler named `target`, every handler's segments are counted. */
  lemma MaximumContextsWithoutMatch(target: string, chain: seq<HandlerInfo>)
    requires forall j :: 0 <= j < |chain| ==> chain[j].handler != target
    ensures MaximumContexts(target, chain) == SegmentCount(chain)
  {
  }

  /** With the first handler named `target` at `k`, exactly the handlers `0..k` are counted. */
  lemma MaximumContextsAtFirstMatch(target: string, chain: seq<HandlerInfo>, k: nat)
    requires k < |chain| && chain[k].handler == target
    requires forall j :: 0 <= j < k ==> chain[j].handler != target
    ensures MaximumContexts(target, chain) == SegmentCount(chain[..k + 1])
  {
  }

  /** Handlers after the first one named `target` do not affect the count. */
  lemma MaximumContextsIgnoresLaterHandlers(target: string, chain: seq<HandlerInfo>, later: seq<HandlerInfo>)
    requires exists j :: 0 <= j < |chain| && chain[j].handler == target
    ensures MaximumContexts(target, chain + later) == MaximumContexts(target, chain)
  {
    var k := FirstMatch(target, chain);
    assert (chain + later)[k] == chain[k];
    assert FirstMatch(target, chain + later) == k;
    assert (chain + later)[..k + 1] == chain[..k + 1];
  }

  /** The count never exceeds the segments of the whole chain. */
  lemma MaximumContextsBounded(target: string, chain: seq<HandlerInfo>)
    ensures 0 <= MaximumContexts(target, chain) <= SegmentCount(chain)
  {
    var k := FirstMatch(target, chain);
    if k < |chain| {
      SegmentCountMonotone(chain, k + 1, |chain|);
      assert chain[..|chain|] == chain;
    }
  }

  /** The service's counting loop: accumulate segment counts, stopping after the first handler named `handler`. */
  method NumberOfContextsAcceptedByHandler(handler: string, handlerInfos: seq<HandlerInfo>) returns (req: nat)
    ensures req == MaximumContexts(handler, handlerInfos)
  {
    req := 0;
    var i := 0;
    while i < |handlerInfos|
      invariant i <= |handlerInfos|
      invariant i <= FirstMatch(handler, handlerInfos)
      invariant req == SegmentCount(handlerInfos[..i])
    {
      req := req + |handlerInfos[i].names|;
      assert handlerInfos[..i + 1][..i] == handlerInfos[..i];
      if handlerInfos[i].handler == handler {
        break;
      }
      i := i + 1;
    }
    assert i == |handlerInfos| ==> handlerInfos[..i] == handlerInfos;
  }

  /** The name of the leaf (last) handler of a chain. */
  function LeafName(handlers: seq<HandlerInfo>): string
    requires |handlers| > 0
  {
    handlers[|handlers| - 1].handler
  }

  /**
    The route name the activeness check is made against: the leaf of the
    chain when more contexts are supplied than `routeName` accepts, and
    `routeName` itself otherwise.
   */
  function PromotedRouteName(contextCount: nat, routeName: string, handlers: seq<HandlerInfo>): (name: string)
    requires |handlers| > 0
    ensures name == routeName || name == LeafName(handlers)
    ensures name != routeName <==> contextCount > MaximumContexts(routeName, handlers) && LeafName(handlers) != routeName
  {
    if contextCount > MaximumContexts(routeName, handlers) then LeafName(handlers) else routeName
  }

  /**
    Whether the target is active. `handlers` is the recognizer's chain for
    `routeName` and `isActiveIntent` the router state's intent check. The
    check is asked about the leaf when more contexts are supplied than
    `routeName` accepts and about `routeName` otherwise, with the contexts
    and query parameters as given and ancestor matches allowed exactly when
    `isCurrentWhenSpecified` is not set; its answer is returned as it is.
   */
  function IsActiveForRoute<C, Q>(contexts: seq<C>, queryParams: Q, routeName: string,
                                  handlers: seq<HandlerInfo>, isActiveIntent: (string, seq<C>, Q, bool) -> bool,
                                  isCurrentWhenSpecified: bool): (active: bool)
    requires |handlers| > 0
    ensures |contexts| > MaximumContexts(routeName, handlers) ==>
              active == isActiveIntent(LeafName(handlers), contexts, queryParams, !isCurrentWhenSpecified)
    ensures |contexts| <= MaximumContexts(routeName, handlers) ==>
              active == isActiveIntent(routeName, contexts, queryParams, !isCurrentWhenSpecified)
  {
    isActiveIntent(PromotedRouteName(|contexts|, routeName, handlers), contexts, queryParams, !isCurrentWhenSpecified)
  }

  /** Supplying more contexts never undoes a promotion to the leaf. */
  lemma PromotionMonotone(fewer: nat, more: nat, routeName: string, handlers: seq<HandlerInfo>)
    requires |handlers| > 0 && fewer <= more
    requires PromotedRouteName(fewer, routeName, handlers) != routeName
    ensures PromotedRouteName(more, routeName, handlers) == LeafName(handlers)
  {
  }

  /** When the target is not a handler of its own chain, it is promoted only once the whole chain's segments are exceeded. */
  lemma PromotionWithoutMatch(contextCount: nat, routeName: string, handlers: seq<HandlerInfo>)
    requires |handlers| > 0
    requires forall j :: 0 <= j < |handlers| ==> handlers[j].handler != routeName
    ensures PromotedRouteName(contextCount, routeName, handlers) == LeafName(handlers)
        <==> contextCount > SegmentCount(handlers)
  {
  }

  /** A link to `posts.post` with one context is checked as `posts.post`, ancestors excluded when pinned. */
  lemma ExactMatchExample<C, Q>(contexts: seq<C>, queryParams: Q, isActiveIntent: (string, seq<C>, Q, bool) -> bool)
    requires |contexts| == 1
    ensures var chain := [HandlerInfo("posts", []), HandlerInfo("posts.post", ["post_id"])];
            IsActiveForRoute(contexts, queryParams, "posts.post", chain, isActiveIntent, true)
              == isActiveIntent("posts.post", contexts, queryParams, false)
  {
  }

  /** A link to `posts` with one context, whose chain ends in `posts.index`, is checked as `posts.index`. */
  lemma ParentToLeafExample<C, Q>(contexts: seq<C>, queryParams: Q, isActiveIntent: (string, seq<C>, Q, bool) -> bool)
    requires |contexts| == 1
    ensures var chain := [HandlerInfo("posts", []), HandlerInfo("posts.index", ["post_id"])];
            IsActiveForRoute(contexts, queryParams, "posts", chain, isActiveIntent, false)
              == isActiveIntent("posts.index", contexts, queryParams, true)
  {
  }
}
