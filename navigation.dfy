/** The Next.js router, reduced to the list of targets it has been asked to show. */
module Navigation {

  class Router {
    var pushed: seq<string>

    constructor ()
      ensures pushed == []
    {
      pushed := [];
    }

    /** `router.push(target)`. */
    method Push(target: string)
      modifies this
      ensures pushed == old(pushed) + [target]
    {
      pushed := pushed + [target];
    }
  }
}
