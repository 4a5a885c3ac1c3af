/**
 * The bootstrap page `_serveSnapshotRoot` serves: two stacked iframes, one
 * shown and one hidden. A snapshot is loaded into the hidden one, and each
 * frame's `onload` swaps the roles. A load of the hidden frame thus brings a
 * finished frame to the front (`ShowThenLoad`); a load of the visible frame
 * swaps all the same and shows a frame that is still loading
 * (`VisibleLoadShowsLoadingFrame`).
 */
module SnapshotViewer {

  /**
   * One iframe: whether it is visible, the URL it was last told to load, and
   * whether that load is still in progress (its `load` event has not fired).
   */
  class Frame {
    var visible: bool
    var src: string
    var loading: bool

    /** `document.createElement('iframe')`: visible, nothing loaded, nothing in progress. */
    constructor ()
      ensures visible && src == "" && !loading
    {
      visible := true;
      src := "";
      loading := false;
    }
  }

  /** The page script's `current` and `next` variables. */
  class Viewer {
    var current: Frame
    var next: Frame

    /** Two distinct frames, the current one shown and the next one hidden. */
    ghost predicate Valid()
      reads this, current, next
    {
      current != next && current.visible && !next.visible
    }

    /** Both frames created, `next` hidden. */
    constructor ()
      ensures Valid() && fresh(current) && fresh(next)
      ensures current.src == "" && next.src == "" && !current.loading && !next.loading
    {
      current := new Frame();
      next := new Frame();
      new;
      next.visible := false;
    }

    /**
     * `onload`, attached to both frames, firing for `loaded`: that frame has
     * finished loading; `current` and `next` trade places whichever frame it
     * was, then the new current is shown and the new next hidden. What each
     * frame has loaded is untouched.
     */
    method OnLoad(loaded: Frame)
      requires current != next
      requires loaded == current || loaded == next
      modifies this, current, next
      ensures current == old(next) && next == old(current)
      ensures Valid()
      ensures current.src == old(next.src) && next.src == old(current.src)
      ensures !loaded.loading
      ensures loaded == old(next) ==> !current.loading && next.loading == old(current.loading)
      ensures loaded == old(current) ==> !next.loading && current.loading == old(next.loading)
    {
      loaded.loading := false;
      var temp := current;
      current := next;
      next := temp;
      current.visible := true;
      next.visible := false;
    }

    /** `showSnapshot(url)`: the hidden frame starts loading; the visible one stays as it is. */
    method ShowSnapshot(url: string)
      requires Valid()
      modifies next`src, next`loading
      ensures Valid() && next.src == url && next.loading
      ensures current.src == old(current.src) && current.loading == old(current.loading)
    {
      next.src := url;
      next.loading := true;
    }

    /** The `message` listener: show the page's own URL followed by the posted snapshot URL. */
    method OnMessage(href: string, snapshotUrl: string)
      requires Valid()
      modifies next`src, next`loading
      ensures Valid() && next.src == href + snapshotUrl && next.loading
      ensures current.src == old(current.src) && current.loading == old(current.loading)
    {
      ShowSnapshot(href + snapshotUrl);
    }
  }

  /** Two loads in a row, of either frame, give every frame its original role back. */
  method LoadTwice(v: Viewer, first: Frame, second: Frame)
    requires v.Valid()
    requires first == v.current || first == v.next
    requires second == v.current || second == v.next
    modifies v, v.current, v.next
    ensures v.current == old(v.current) && v.next == old(v.next) && v.Valid()
  {
    v.OnLoad(first);
    v.OnLoad(second);
  }

  /**
   * A snapshot handed to the viewer is shown once its own frame has loaded,
   * and the frame shown then is not loading.
   */
  method ShowThenLoad(v: Viewer, url: string)
    requires v.Valid()
    modifies v, v.current, v.next
    ensures v.Valid() && v.current.visible && v.current.src == url && !v.current.loading
    ensures v.current == old(v.next) && v.next == old(v.current)
  {
    v.ShowSnapshot(url);
    v.OnLoad(v.next);
  }

  /**
   * The same handler also runs when the visible frame loads (a navigation
   * inside the shown snapshot, say): the roles swap anyway, and a snapshot
   * still loading in the hidden frame is shown while it loads.
   */
  method VisibleLoadShowsLoadingFrame(v: Viewer, url: string)
    requires v.Valid()
    modifies v, v.current, v.next
    ensures v.Valid() && v.current.visible && v.current.src == url && v.current.loading
    ensures v.current == old(v.next) && v.next == old(v.current)
  {
    v.ShowSnapshot(url);
    v.OnLoad(v.current);
  }
}
