/** The slice of the browser's media platform that the soundboard drives: object URLs,
    event listeners and the audio element whose fields the handlers mutate in place. */
module Media {

  datatype Option<+T> = None | Some(value: T)

  /** An object URL as handed out by the browser. Only its identity matters, so a URL is
      an opaque token; the owner of a URL pool hands out each token once. */
  type Url = nat

  /** The four media events the transport subscribes to. */
  datatype EventKind = TimeUpdate | LoadedMetadata | PlayEvent | PauseEvent

  /** A listener closure. Each closure is a distinct object, so a freshly created
      listener is never already subscribed anywhere. */
  class Listener {
    const kind: EventKind

    constructor (kind: EventKind)
      ensures this.kind == kind
    {
      this.kind := kind;
    }
  }

  /** The playback state of one audio element. `src == None` stands for the empty
      source string; `duration == None` stands for a duration that is not a number yet.
      The element's subscribers are kept apart from it. */
  datatype HandleState = HandleState(
    paused: bool,
    currentTime: nat,
    src: Option<Url>,
    loop: bool,
    duration: Option<nat>)

  /** A playable audio element. Its fields are changed in place by whoever holds it. */
  class AudioHandle {
    var paused: bool
    var currentTime: nat
    var src: Option<Url>
    var loop: bool
    var duration: Option<nat>
    var listeners: set<Listener>

    function State(): HandleState
      reads this
    {
      HandleState(paused, currentTime, src, loop, duration)
    }

    /** A new element on `url`: paused at the start, not looping, duration unknown. */
    constructor (url: Url)
      ensures State() == HandleState(true, 0, Some(url), false, None)
      ensures listeners == {}
    {
      paused := true;
      currentTime := 0;
      src := Some(url);
      loop := false;
      duration := None;
      listeners := {};
    }

    method Play()
      modifies this
      ensures State() == old(State()).(paused := false) && listeners == old(listeners)
    {
      paused := false;
    }

    method Pause()
      modifies this
      ensures State() == old(State()).(paused := true) && listeners == old(listeners)
    {
      paused := true;
    }

    /** Assigning the element's playback position. */
    method Seek(t: nat)
      modifies this
      ensures State() == old(State()).(currentTime := t) && listeners == old(listeners)
    {
      currentTime := t;
    }

    /** Assigning the empty string to the element's source. */
    method ClearSource()
      modifies this
      ensures State() == old(State()).(src := None) && listeners == old(listeners)
    {
      src := None;
    }

    method SetLoop(b: bool)
      modifies this
      ensures State() == old(State()).(loop := b) && listeners == old(listeners)
    {
      loop := b;
    }

    method AddEventListener(l: Listener)
      modifies this
      ensures State() == old(State()) && listeners == old(listeners) + {l}
    {
      listeners := listeners + {l};
    }

    method RemoveEventListener(l: Listener)
      modifies this
      ensures State() == old(State()) && listeners == old(listeners) - {l}
    {
      listeners := listeners - {l};
    }
  }
}
