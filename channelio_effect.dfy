/** The ChannelIO effect as the page runs it: the browser's globals are the
    fields of one object, and the effect's setup, its load listener and its
    cleanup update them in place. Each method is proved against the pure
    specification in module ChannelIO. */
module ChannelIOEffect {
  import opened Hostname
  import opened ChannelIO

  class BrowserWindow {
    var hostname: string
    var installed: bool
    var queue: seq<Command>
    var initialized: bool
    var scriptPresent: bool
    var readyComplete: bool
    var listenersAttached: bool
    var cleanupPending: bool
    /** Script elements the effect has inserted so far: a proof-only count
        that the page itself does not keep. */
    ghost var injections: nat

    ghost function State(): Widget
      reads this
    {
      Widget(hostname, installed, queue, initialized, scriptPresent, readyComplete,
             listenersAttached, cleanupPending, injections)
    }

    ghost predicate Valid()
      reads this
    {
      Consistent(State())
    }

    constructor (hostname: string, readyComplete: bool)
      ensures Valid() && State() == FreshPage(hostname, readyComplete)
    {
      this.hostname := hostname;
      this.readyComplete := readyComplete;
      installed := false;
      queue := [];
      initialized := false;
      scriptPresent := false;
      listenersAttached := false;
      cleanupPending := false;
      injections := 0;
    }

    /** `w.ChannelIO?.(c)`. */
    method Invoke(c: Command)
      modifies this`queue
      ensures State() == ChannelIO.Invoke(old(State()), c)
    {
      if installed {
        queue := queue + [c];
      }
    }

    /** `loadScript`. */
    method LoadScript()
      modifies this`initialized, this`scriptPresent, this`injections
      ensures State() == ChannelIO.LoadScript(old(State()))
    {
      if initialized || scriptPresent {
        return;
      }
      initialized := true;
      scriptPresent := true;
      injections := injections + 1;
    }

    /** The effect's setup. */
    method Mount()
      requires Valid()
      modifies this
      ensures Valid()
      ensures State() == ChannelIO.Mount(old(State()))
      ensures !IsAllowedHostname(hostname) ==> unchanged(this)
      ensures old(scriptPresent) ==> injections == old(injections)
    {
      if !IsAllowedHostname(hostname) {
        return;
      }
      if !installed {
        installed := true;
        queue := [];
      }
      if readyComplete {
        LoadScript();
      } else {
        listenersAttached := true;
      }
      Invoke(Boot(PLUGIN_KEY));
      cleanupPending := true;
    }

    /** `handleLoad`, run by whichever of DOMContentLoaded and load comes
        first. */
    method HandleLoad()
      requires Valid()
      modifies this
      ensures Valid()
      ensures State() == ChannelIO.HandleLoad(old(State()))
      ensures initialized && scriptPresent && !listenersAttached && injections <= 1
    {
      LoadScript();
      if listenersAttached {
        listenersAttached := false;
      }
    }

    /** The document reaches 'complete' and the browser fires load, which
        reaches `handleLoad` only while its listeners are registered. */
    method CompleteDocument()
      requires Valid()
      modifies this
      ensures Valid()
      ensures State() == ChannelIO.CompleteDocument(old(State()))
      ensures readyComplete && injections <= 1
      ensures old(listenersAttached) && !old(readyComplete) ==> initialized && scriptPresent && !listenersAttached
    {
      if readyComplete {
        return;
      }
      readyComplete := true;
      if listenersAttached {
        HandleLoad();
      }
    }

    /** The effect's cleanup. */
    method Unmount()
      requires Valid()
      modifies this
      ensures Valid()
      ensures State() == ChannelIO.Unmount(old(State()))
      ensures !listenersAttached
      ensures old(cleanupPending) && installed ==> queue == old(queue) + [Shutdown]
    {
      if !cleanupPending {
        return;
      }
      if listenersAttached {
        listenersAttached := false;
      }
      Invoke(Shutdown);
      cleanupPending := false;
    }
  }
}
