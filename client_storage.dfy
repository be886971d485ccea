/**
 * The browser storage the shield keeps its state in. It outlives a page
 * load: every new page (a reload) gets a fresh component over the same
 * storage object.
 */
module ClientStorage {
  import opened Wrappers

  class BrowserStorage {
    /** localStorage `security_block_start`: when the current reload block began. */
    var blockStart: Option<int>
    /** localStorage `security_reloads`: the reload log; a removed key reads as the empty log. */
    var reloads: seq<int>
    /** sessionStorage `page_views`: the navigation log of the bot guard. */
    var pageViews: seq<int>

    /** A browser that has never visited the site: every key is absent. */
    constructor ()
      ensures blockStart == None && reloads == [] && pageViews == []
    {
      blockStart := None;
      reloads := [];
      pageViews := [];
    }
  }
}
