/** The lifecycle of the third-party ChannelIO messaging widget: the host
    gate, the command-queue stub, the one-time injection of the widget's
    script (right away when the document is complete, otherwise from the
    first of the DOMContentLoaded and load events), the boot command at
    mount and the shutdown command at teardown.

    The browser's globals are an abstract environment. `Widget` is its value
    and `Mount`, `HandleLoad` and `Unmount` are the pure specification of the
    effect; class `BrowserWindow` (module ChannelIOEffect) holds the same
    state in fields and its methods change them in place. */
module ChannelIO {
  import opened Hostname

  const PLUGIN_KEY: string := "4b1c099a-a9d2-4754-82e4-159aed6bc85c"

  /** The arguments of one call of the `ChannelIO` command interface. */
  datatype Command = Boot(pluginKey: string) | Shutdown

  /** The environment the effect reads and writes. */
  datatype Widget = Widget(
    hostname: string,         // window.location.hostname
    installed: bool,          // window.ChannelIO is defined
    queue: seq<Command>,      // window.ChannelIO.q, the stub's pending calls
    initialized: bool,        // window.ChannelIOInitialized
    scriptPresent: bool,      // an element with id "channel-io-script" is in the document
    readyComplete: bool,      // document.readyState === 'complete'
    listenersAttached: bool,  // the mount's DOMContentLoaded and load listeners are registered
    cleanupPending: bool,     // the effect returned a cleanup that has not run yet
    injections: nat)          // script elements the effect has inserted so far

  /** A page as the browser first hands it over: no widget globals, no
      script element, no listeners. */
  function FreshPage(hostname: string, readyComplete: bool): Widget
  {
    Widget(hostname, false, [], false, false, readyComplete, false, false, 0)
  }

  /** The invariant of a page that only this effect touches: the queue exists
      only with the stub, the guard flag is set exactly when the script
      element is there, and that element was inserted exactly once. */
  predicate Consistent(s: Widget) {
    && (!s.installed ==> s.queue == [])
    && (s.initialized <==> s.scriptPresent)
    && s.injections == (if s.scriptPresent then 1 else 0)
    && (s.listenersAttached ==> s.cleanupPending)
  }

  /** `w.ChannelIO?.(...args)`: with the stub in place the call is appended
      to the queue; without any interface it does nothing. */
  function Invoke(s: Widget, c: Command): (r: Widget)
    ensures s.installed ==> r.queue == s.queue + [c] && r.queue[|s.queue|] == c
    ensures !s.installed ==> r == s
    ensures r.(queue := s.queue) == s
    ensures Consistent(s) ==> Consistent(r)
  {
    if s.installed then s.(queue := s.queue + [c]) else s
  }

  /** The stub installation: only when no interface is there yet. */
  function InstallStub(s: Widget): (r: Widget)
    ensures r.installed
    ensures s.installed ==> r == s
    ensures r.(installed := s.installed, queue := s.queue) == s
    ensures Consistent(s) ==> Consistent(r) && r.queue == s.queue
  {
    if s.installed then s else s.(installed := true, queue := [])
  }

  /** `loadScript`: guarded by the global flag and by an existing element
      with the reserved id; otherwise sets the flag and inserts the script. */
  function LoadScript(s: Widget): (r: Widget)
    ensures r.initialized || r.scriptPresent
    ensures Consistent(s) ==> Consistent(r) && r.initialized && r.scriptPresent
    ensures (s.initialized || s.scriptPresent) ==> r == s
    ensures r.injections == s.injections + (if s.initialized || s.scriptPresent then 0 else 1)
    ensures r.(initialized := s.initialized, scriptPresent := s.scriptPresent, injections := s.injections) == s
  {
    if s.initialized || s.scriptPresent then s
    else s.(initialized := true, scriptPresent := true, injections := s.injections + 1)
  }

  /** The effect's setup. On a host outside the gate it changes nothing. On
      an allowed host the stub is installed only when absent, the script is
      loaded at once exactly when the document is complete (otherwise the
      listeners wait for it), and boot is queued after every call already
      in the queue. */
  function Mount(s: Widget): (r: Widget)
    ensures !IsAllowedHostname(s.hostname) ==> r == s
    ensures IsAllowedHostname(s.hostname) ==>
      && r.installed && r.cleanupPending
      && r.queue == InstallStub(s).queue + [Boot(PLUGIN_KEY)]
      && (s.readyComplete ==> (r.initialized || r.scriptPresent) && r.listenersAttached == s.listenersAttached)
      && (!s.readyComplete ==> r.listenersAttached && r.injections == s.injections)
    ensures r.hostname == s.hostname && r.readyComplete == s.readyComplete
    ensures Consistent(s) ==> Consistent(r)
    ensures Consistent(s) && IsAllowedHostname(s.hostname) ==>
      r.queue == s.queue + [Boot(PLUGIN_KEY)] && (s.readyComplete ==> r.initialized && r.scriptPresent)
  {
    if !IsAllowedHostname(s.hostname) then s
    else
      var stubbed := InstallStub(s);
      var loading := if stubbed.readyComplete then LoadScript(stubbed)
                     else stubbed.(listenersAttached := true);
      Invoke(loading, Boot(PLUGIN_KEY)).(cleanupPending := true)
  }

  /** `handleLoad`, the listener for DOMContentLoaded and load: it loads the
      script and leaves no listener registered; the queue and the pending
      cleanup are not its business. */
  function HandleLoad(s: Widget): (r: Widget)
    ensures (r.initialized || r.scriptPresent) && !r.listenersAttached
    ensures Consistent(s) ==> Consistent(r) && r.initialized && r.scriptPresent
    ensures r.injections <= s.injections + 1
    ensures r.hostname == s.hostname && r.installed == s.installed && r.queue == s.queue
    ensures r.readyComplete == s.readyComplete && r.cleanupPending == s.cleanupPending
  {
    var loaded := LoadScript(s);
    if loaded.listenersAttached then loaded.(listenersAttached := false) else loaded
  }

  /** The effect's cleanup, which exists only when the setup got past the
      host gate: it leaves no listener registered and, when the interface
      exists, queues shutdown after everything queued before. */
  function Unmount(s: Widget): (r: Widget)
    ensures !s.cleanupPending ==> r == s
    ensures s.cleanupPending ==>
      && !r.listenersAttached && !r.cleanupPending
      && r.queue == (if s.installed then s.queue + [Shutdown] else s.queue)
    ensures r.hostname == s.hostname && r.installed == s.installed && r.readyComplete == s.readyComplete
    ensures r.initialized == s.initialized && r.scriptPresent == s.scriptPresent && r.injections == s.injections
    ensures Consistent(s) ==> Consistent(r) && !r.listenersAttached
  {
    if !s.cleanupPending then s
    else
      var detached := if s.listenersAttached then s.(listenersAttached := false) else s;
      Invoke(detached, Shutdown).(cleanupPending := false)
  }

  /** The document finishes loading: `readyState` becomes 'complete' and the
      load event fires, which runs `handleLoad` when its listeners are still
      registered. A document completes once; later it stays complete. */
  function CompleteDocument(s: Widget): (r: Widget)
    ensures r.readyComplete
    ensures s.readyComplete ==> r == s
    ensures !s.listenersAttached ==> r == s.(readyComplete := true)
    ensures !s.readyComplete && s.listenersAttached ==>
      !r.listenersAttached && (r.initialized || r.scriptPresent)
    ensures r.hostname == s.hostname && r.installed == s.installed && r.queue == s.queue
    ensures r.cleanupPending == s.cleanupPending
    ensures Consistent(s) ==> Consistent(r)
  {
    if s.readyComplete then s
    else
      var complete := s.(readyComplete := true);
      if complete.listenersAttached then HandleLoad(complete) else complete
  }

  /** Something that can happen to the page. `LoadEvent` is DOMContentLoaded
      and `CompleteEvent` the document reaching 'complete' together with the
      load event; either reaches the effect only through a listener that is
      still registered. */
  datatype Event = MountEvent | LoadEvent | CompleteEvent | UnmountEvent

  function Step(s: Widget, e: Event): Widget
  {
    match e
    case MountEvent => Mount(s)
    case LoadEvent => if s.listenersAttached then HandleLoad(s) else s
    case CompleteEvent => CompleteDocument(s)
    case UnmountEvent => Unmount(s)
  }

  function Run(s: Widget, events: seq<Event>): Widget
    decreases |events|
  {
    if events == [] then s else Run(Step(s, events[0]), events[1..])
  }

  /** Any sequence of mounts, load events, the document's completion and
      unmounts keeps the page consistent, so the script is inserted at most
      once in the whole life of the document, whatever the order of the
      events. */
  lemma {:induction false} RunConsistent(s: Widget, events: seq<Event>)
    requires Consistent(s)
    ensures Consistent(Run(s, events))
    ensures Run(s, events).injections <= 1
    decreases |events|
  {
    if events != [] {
      RunConsistent(Step(s, events[0]), events[1..]);
    }
  }

  /** Once the script has been inserted, no later event inserts another one
      or clears the guard flag. */
  lemma {:induction false} InjectedStaysInjected(s: Widget, events: seq<Event>)
    requires s.initialized && s.scriptPresent
    ensures Run(s, events).initialized && Run(s, events).scriptPresent
    ensures Run(s, events).injections == s.injections
    decreases |events|
  {
    if events != [] {
      InjectedStaysInjected(Step(s, events[0]), events[1..]);
    }
  }

  /** From a fresh page the script is inserted at most once across any
      sequence of events. */
  lemma AtMostOneInjection(hostname: string, readyComplete: bool, events: seq<Event>)
    ensures Run(FreshPage(hostname, readyComplete), events).injections <= 1
  {
    RunConsistent(FreshPage(hostname, readyComplete), events);
  }

  /** Once the stub exists, the queue only grows at its end: commands
      already queued keep their places and their order. */
  lemma {:induction false} QueueOnlyGrows(s: Widget, events: seq<Event>)
    requires s.installed
    ensures Run(s, events).installed
    ensures s.queue <= Run(s, events).queue
    decreases |events|
  {
    if events != [] {
      var next := Step(s, events[0]);
      assert s.queue <= next.queue;
      QueueOnlyGrows(next, events[1..]);
    }
  }

  /** A complete document stays complete. */
  lemma {:induction false} ReadyStaysComplete(s: Widget, events: seq<Event>)
    requires s.readyComplete
    ensures Run(s, events).readyComplete
    decreases |events|
  {
    if events != [] {
      ReadyStaysComplete(Step(s, events[0]), events[1..]);
    }
  }

  /** The effect is never stuck: while a cleanup is pending the script is in
      or the listeners wait for it, and they wait only on a document that is
      still loading. */
  predicate LoadOnTrack(s: Widget) {
    && (s.cleanupPending ==> s.scriptPresent || s.listenersAttached)
    && (s.listenersAttached ==> !s.readyComplete)
  }

  /** Every event keeps a consistent page on track. */
  lemma {:induction false} StepOnTrack(s: Widget, e: Event)
    requires Consistent(s) && LoadOnTrack(s)
    ensures LoadOnTrack(Step(s, e))
  {
    match e
    case MountEvent =>
      if IsAllowedHostname(s.hostname) && s.readyComplete {
        assert Mount(s).scriptPresent;
      }
    case LoadEvent =>
    case CompleteEvent =>
    case UnmountEvent =>
  }

  /** Any sequence of events keeps a consistent page on track, and then a
      mounted effect on a complete document has its script in. */
  lemma {:induction false} RunOnTrack(s: Widget, events: seq<Event>)
    requires Consistent(s) && LoadOnTrack(s)
    ensures Consistent(Run(s, events)) && LoadOnTrack(Run(s, events))
    ensures var r := Run(s, events); r.cleanupPending && r.readyComplete ==> r.initialized && r.scriptPresent
    decreases |events|
  {
    if events != [] {
      StepOnTrack(s, events[0]);
      RunOnTrack(Step(s, events[0]), events[1..]);
    }
  }

  /** From a fresh page, whatever happened before: once the document is
      complete, a mounted effect has its script in the document. In
      particular a remount after the document completed loads the script
      at once instead of waiting for a load event that will not come. */
  lemma MountedCompletePageHasScript(hostname: string, readyComplete: bool, events: seq<Event>)
    ensures var r := Run(FreshPage(hostname, readyComplete), events);
            r.cleanupPending && r.readyComplete ==> r.initialized && r.scriptPresent && r.injections == 1
  {
    RunOnTrack(FreshPage(hostname, readyComplete), events);
  }

  /** On a host outside the gate, a page without a pending cleanup or
      listeners is never touched by the effect: the document's own
      completion is the only change any sequence of events makes. */
  lemma {:induction false} DisallowedHostNeverTouched(s: Widget, events: seq<Event>)
    requires !IsAllowedHostname(s.hostname) && !s.cleanupPending && !s.listenersAttached
    ensures Run(s, events) == s.(readyComplete := Run(s, events).readyComplete)
    ensures s.readyComplete ==> Run(s, events) == s
    decreases |events|
  {
    if events != [] {
      var next := Step(s, events[0]);
      assert next == s || next == s.(readyComplete := true);
      DisallowedHostNeverTouched(next, events[1..]);
    }
  }

  /** The mount, remount sequence of a development build on a page that is
      still loading: the script is inserted by the first load event only,
      and the queue holds boot, shutdown, boot in call order. */
  lemma RemountWhileLoadingExample()
    ensures var s := Run(FreshPage("localhost", false), [MountEvent, UnmountEvent, MountEvent, LoadEvent, LoadEvent]);
            s.injections == 1 && s.initialized && !s.listenersAttached &&
            s.queue == [Boot(PLUGIN_KEY), Shutdown, Boot(PLUGIN_KEY)]
  {
    var events := [MountEvent, UnmountEvent, MountEvent, LoadEvent, LoadEvent];
    var s0 := FreshPage("localhost", false);
    var s1 := Step(s0, MountEvent);
    var s2 := Step(s1, UnmountEvent);
    var s3 := Step(s2, MountEvent);
    var s4 := Step(s3, LoadEvent);
    var s5 := Step(s4, LoadEvent);
    assert Run(s0, events) == Run(s1, events[1..]);
    assert Run(s1, events[1..]) == Run(s2, events[2..]);
    assert Run(s2, events[2..]) == Run(s3, events[3..]);
    assert Run(s3, events[3..]) == Run(s4, events[4..]);
    assert Run(s4, events[4..]) == Run(s5, []);
  }

  /** Mounted while loading, unmounted before the document completed, and
      mounted again afterwards: the second mount reads the complete document
      and inserts the script at once, with no listener left waiting. */
  lemma RemountAfterCompleteExample()
    ensures var s := Run(FreshPage("localhost", false), [MountEvent, UnmountEvent, CompleteEvent, MountEvent]);
            s.injections == 1 && s.initialized && s.scriptPresent && !s.listenersAttached &&
            s.queue == [Boot(PLUGIN_KEY), Shutdown, Boot(PLUGIN_KEY)]
  {
    var events := [MountEvent, UnmountEvent, CompleteEvent, MountEvent];
    var s0 := FreshPage("localhost", false);
    var s1 := Step(s0, MountEvent);
    var s2 := Step(s1, UnmountEvent);
    var s3 := Step(s2, CompleteEvent);
    var s4 := Step(s3, MountEvent);
    assert Run(s0, events) == Run(s1, events[1..]);
    assert Run(s1, events[1..]) == Run(s2, events[2..]);
    assert Run(s2, events[2..]) == Run(s3, events[3..]);
    assert Run(s3, events[3..]) == Run(s4, []);
  }
}
