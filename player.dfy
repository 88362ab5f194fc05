/** The transport bar of the sample that is playing: the time read-out, the play/pause,
    stop and seek controls, and the subscription of its state to the audio element's
    events. */
module Player {
  import opened Media

  // ---------------------------------------------------------------------------
  // Time read-out
  // ---------------------------------------------------------------------------

  predicate IsDigit(c: char) {
    '0' <= c <= '9'
  }

  predicate AllDigits(s: string) {
    forall i :: 0 <= i < |s| ==> IsDigit(s[i])
  }

  function Digit(d: nat): (c: char)
    requires d < 10
    ensures IsDigit(c) && (c as int) - ('0' as int) == d
  {
    ('0' as int + d) as char
  }

  /** The decimal numeral of `n`, as `Number.prototype.toString` writes it. */
  function NatToString(n: nat): (r: string)
    ensures |r| >= 1 && AllDigits(r)
    ensures r[0] == '0' ==> n == 0 && |r| == 1
    ensures n < 10 <==> |r| == 1
  {
    if n < 10 then [Digit(n)] else NatToString(n / 10) + [Digit(n % 10)]
  }

  /** The number a string of decimal digits denotes; the empty string denotes 0. */
  function DigitsValue(s: string): nat
    requires AllDigits(s)
  {
    if |s| == 0 then 0
    else DigitsValue(s[..|s| - 1]) * 10 + ((s[|s| - 1] as int) - ('0' as int))
  }

  /** `padStart(2, '0')`: a string shorter than two characters gets zeros in front. */
  function PadStart2(s: string): (r: string)
    ensures |s| >= 2 ==> r == s
    ensures |s| < 2 ==> |r| == 2 && r[2 - |s|..] == s && forall i :: 0 <= i < 2 - |s| ==> r[i] == '0'
    decreases 2 - |s|
  {
    if |s| >= 2 then s else PadStart2("0" + s)
  }

  /** JavaScript's `%` on a non-negative number and a positive modulus. */
  function FloatMod(x: real, m: real): real
    requires m > 0.0
  {
    x - m * ((x / m).Floor as real)
  }

  /** On a non-negative time, whole minutes and the seconds within the minute are the
      quotient and remainder of the whole seconds by 60. */
  lemma SplitSeconds(t: real)
    requires t >= 0.0
    ensures t.Floor >= 0
    ensures (t / 60.0).Floor == t.Floor / 60
    ensures FloatMod(t, 60.0).Floor == t.Floor % 60
  {
    var w := t.Floor;
    var q := w / 60;
    assert w as real <= t < w as real + 1.0;
    assert w == 60 * q + w % 60;
    assert (q as real) * 60.0 <= t;
    assert t < (q as real) * 60.0 + 60.0;
    assert (q as real) <= t / 60.0 < (q as real) + 1.0;
    assert (t / 60.0).Floor == q;
    assert FloatMod(t, 60.0) == t - 60.0 * (q as real);
    assert (w - 60 * q) as real <= t - 60.0 * (q as real) < (w - 60 * q) as real + 1.0;
  }

  /** The "m:ss" read-out of a time in seconds; a time that is not a number (`None`) reads
      "0:00". */
  function FormatTime(time: Option<real>): (r: string)
    requires time.Some? ==> time.value >= 0.0
    ensures time.None? ==> r == "0:00"
    ensures |r| >= 4 && r[|r| - 3] == ':'
  {
    match time
    case None => "0:00"
    case Some(t) =>
      SplitSeconds(t);
      NatToString((t / 60.0).Floor) + ":" + PadStart2(NatToString(FloatMod(t, 60.0).Floor))
  }

  /** Reading an "m:ss" read-out back: the minutes before the colon, exactly two digits of
      seconds below 60 after it. */
  function ParseTime(s: string): (r: Option<nat>)
    ensures r.Some? ==> |s| >= 4 && s[|s| - 3] == ':'
  {
    if |s| >= 4 && s[|s| - 3] == ':' && AllDigits(s[..|s| - 3]) && AllDigits(s[|s| - 2..])
       && DigitsValue(s[|s| - 2..]) < 60
    then Some(DigitsValue(s[..|s| - 3]) * 60 + DigitsValue(s[|s| - 2..]))
    else None
  }

  /** The numeral of `n` denotes `n`. */
  lemma {:induction false} NatToStringValue(n: nat)
    ensures DigitsValue(NatToString(n)) == n
  {
    var s := NatToString(n);
    if n >= 10 {
      NatToStringValue(n / 10);
      assert s[..|s| - 1] == NatToString(n / 10);
    } else {
      assert s[..|s| - 1] == [];
    }
  }

  /** Leading zeros do not change the value of a numeral. */
  lemma {:induction false} LeadingZero(s: string)
    requires AllDigits(s)
    ensures AllDigits("0" + s) && DigitsValue("0" + s) == DigitsValue(s)
  {
    var z := "0" + s;
    if |s| > 0 {
      assert z[..|z| - 1] == "0" + s[..|s| - 1];
      LeadingZero(s[..|s| - 1]);
    } else {
      assert z[..|z| - 1] == [];
    }
  }

  /** Padding a numeral keeps its value. */
  lemma {:induction false} PadKeepsValue(s: string)
    requires AllDigits(s)
    ensures AllDigits(PadStart2(s)) && DigitsValue(PadStart2(s)) == DigitsValue(s)
    decreases 2 - |s|
  {
    if |s| < 2 {
      LeadingZero(s);
      PadKeepsValue("0" + s);
    }
  }

  /** The read-out of a whole number of seconds. */
  function FormatWhole(n: nat): string {
    NatToString(n / 60) + ":" + PadStart2(NatToString(n % 60))
  }

  /** A non-negative time reads like its whole seconds. */
  lemma FormatTimeWhole(t: real)
    requires t >= 0.0
    ensures t.Floor >= 0 && FormatTime(Some(t)) == FormatWhole(t.Floor)
  {
    SplitSeconds(t);
  }

  /** The read-out of `n` seconds shows the whole minutes, then exactly two digits holding
      the seconds within the minute, a number below 60. */
  lemma FormatWholeParts(n: nat)
    ensures var r := FormatWhole(n);
      && |r| >= 4 && r[|r| - 3] == ':'
      && r[..|r| - 3] == NatToString(n / 60)
      && AllDigits(r[|r| - 2..])
      && DigitsValue(r[|r| - 2..]) == n % 60 < 60
  {
    var sec := NatToString(n % 60);
    var r := FormatWhole(n);
    assert r[|r| - 2..] == PadStart2(sec);
    assert r[..|r| - 3] == NatToString(n / 60);
    NatToStringValue(n % 60);
    PadKeepsValue(sec);
  }

  /** Reading the read-out of `n` seconds back gives `n`. */
  lemma ParseFormatWhole(n: nat)
    ensures ParseTime(FormatWhole(n)) == Some(n)
  {
    var r := FormatWhole(n);
    FormatWholeParts(n);
    NatToStringValue(n / 60);
    ParseParts(r);
  }

  /** An "m:ss"-shaped string parses to its minutes times 60 plus its seconds. */
  lemma ParseParts(r: string)
    requires |r| >= 4 && r[|r| - 3] == ':'
    requires AllDigits(r[..|r| - 3]) && AllDigits(r[|r| - 2..]) && DigitsValue(r[|r| - 2..]) < 60
    ensures ParseTime(r) == Some(DigitsValue(r[..|r| - 3]) * 60 + DigitsValue(r[|r| - 2..]))
  {
  }

  /** Reading the read-out of a non-negative time back gives its whole seconds. */
  lemma ParseFormatTime(t: real)
    requires t >= 0.0
    ensures ParseTime(FormatTime(Some(t))) == Some(t.Floor)
  {
    FormatTimeWhole(t);
    ParseFormatWhole(t.Floor);
  }

  /** Two times read the same exactly when they have the same whole seconds. */
  lemma FormatTimeSameIff(a: real, b: real)
    requires a >= 0.0 && b >= 0.0
    ensures FormatTime(Some(a)) == FormatTime(Some(b)) <==> a.Floor == b.Floor
  {
    FormatTimeWhole(a);
    FormatTimeWhole(b);
    ParseFormatWhole(a.Floor);
    ParseFormatWhole(b.Floor);
  }

  // ---------------------------------------------------------------------------
  // Transport
  // ---------------------------------------------------------------------------

  /** Subscribing one new listener per event to `audio`: time, metadata, play, pause. */
  method Subscribe(audio: AudioHandle) returns (ls: seq<Listener>)
    modifies audio
    ensures |ls| == 4 && forall i :: 0 <= i < 4 ==> fresh(ls[i])
    ensures ls[0].kind == TimeUpdate && ls[1].kind == LoadedMetadata
    ensures ls[2].kind == PlayEvent && ls[3].kind == PauseEvent
    ensures audio.listeners == old(audio.listeners) + {ls[0], ls[1], ls[2], ls[3]}
    ensures audio.State() == old(audio.State())
  {
    var onTime := new Listener(TimeUpdate);
    var onMeta := new Listener(LoadedMetadata);
    var onPlay := new Listener(PlayEvent);
    var onPause := new Listener(PauseEvent);
    audio.AddEventListener(onTime);
    audio.AddEventListener(onMeta);
    audio.AddEventListener(onPlay);
    audio.AddEventListener(onPause);
    ls := [onTime, onMeta, onPlay, onPause];
  }

  /** The transport of one audio element (or of none). Its state mirrors the element
      through the four listeners it subscribes; `closeRequests` counts the calls of the
      close callback. */
  class Transport {
    const audio: AudioHandle?
    var isPlaying: bool
    var currentTime: nat
    var duration: Option<nat>
    var closeRequests: nat
    var subscribed: seq<Listener>

    /** The listeners of the running effect, one per event, in subscription order. */
    ghost predicate Subscribed()
      reads this, audio
    {
      && audio != null
      && |subscribed| == 4
      && subscribed[0].kind == TimeUpdate && subscribed[1].kind == LoadedMetadata
      && subscribed[2].kind == PlayEvent && subscribed[3].kind == PauseEvent
      && (forall i :: 0 <= i < 4 ==> subscribed[i] in audio.listeners)
    }

    /** The displayed play state agrees with the element. */
    ghost predicate InSync()
      reads this, audio
    {
      audio != null ==> isPlaying == !audio.paused
    }

    /** A fresh transport: not playing, at 0, duration 0, nothing subscribed yet. */
    constructor (audio: AudioHandle?)
      ensures this.audio == audio && !isPlaying && currentTime == 0 && duration == Some(0)
      ensures closeRequests == 0 && subscribed == []
    {
      this.audio := audio;
      isPlaying := false;
      currentTime := 0;
      duration := Some(0);
      closeRequests := 0;
      subscribed := [];
    }

    /** The effect: subscribe four new listeners and copy the play state and the duration
        from the element. Without an element nothing happens. */
    method RunEffect()
      modifies this, audio
      ensures audio == null ==> unchanged(this)
      ensures audio != null ==>
        && Subscribed() && InSync()
        && (forall i :: 0 <= i < 4 ==> fresh(subscribed[i]))
        && audio.listeners == old(audio.listeners) + {subscribed[0], subscribed[1], subscribed[2], subscribed[3]}
        && audio.State() == old(audio.State())
        && duration == audio.duration
        && currentTime == old(currentTime) && closeRequests == old(closeRequests)
    {
      if audio == null {
        return;
      }
      subscribed := Subscribe(audio);
      isPlaying := !audio.paused;
      duration := audio.duration;
    }

    /** The effect's cleanup: unsubscribe the four listeners again. */
    method CleanupEffect()
      requires audio != null ==> Subscribed()
      modifies this, audio
      ensures audio == null ==> unchanged(this)
      ensures audio != null ==>
        && audio.listeners == old(audio.listeners) - {old(subscribed[0]), old(subscribed[1]), old(subscribed[2]), old(subscribed[3])}
        && audio.State() == old(audio.State())
        && subscribed == []
        && isPlaying == old(isPlaying) && currentTime == old(currentTime)
        && duration == old(duration) && closeRequests == old(closeRequests)
    {
      if audio == null {
        return;
      }
      audio.RemoveEventListener(subscribed[0]);
      audio.RemoveEventListener(subscribed[1]);
      audio.RemoveEventListener(subscribed[2]);
      audio.RemoveEventListener(subscribed[3]);
      subscribed := [];
    }

    /** Mounting then unmounting the transport leaves the element's subscribers as they were. */
    method EffectLifecycle()
      modifies this, audio
      ensures audio != null ==> audio.listeners == old(audio.listeners) && audio.State() == old(audio.State())
    {
      RunEffect();
      CleanupEffect();
    }

    /** The element firing an event at listener `l`: the transport's own listeners copy the
        element's time, duration or play state; anyone else's listener does not touch it. */
    method Dispatch(l: Listener)
      requires audio != null ==> Subscribed()
      modifies this
      ensures audio == null || l !in subscribed ==> unchanged(this)
      ensures audio != null && l in subscribed ==>
        && subscribed == old(subscribed) && closeRequests == old(closeRequests)
        && isPlaying == (match l.kind case PlayEvent => true case PauseEvent => false case _ => old(isPlaying))
        && currentTime == (if l.kind == TimeUpdate then audio.currentTime else old(currentTime))
        && duration == (if l.kind == LoadedMetadata then audio.duration else old(duration))
    {
      if audio == null || l !in subscribed {
        return;
      }
      match l.kind
      case TimeUpdate => currentTime := audio.currentTime;
      case LoadedMetadata => duration := audio.duration;
      case PlayEvent => isPlaying := true;
      case PauseEvent => isPlaying := false;
    }

    /** Pause when shown as playing, play otherwise. */
    method HandlePlayPause()
      modifies audio
      ensures audio != null ==>
        audio.State() == old(audio.State()).(paused := isPlaying) && audio.listeners == old(audio.listeners)
    {
      if audio == null {
        return;
      }
      if isPlaying {
        audio.Pause();
      } else {
        audio.Play();
      }
    }

    /** Pause, rewind to the start and ask the owner to close, once. */
    method HandleStop()
      modifies this, audio
      ensures audio == null ==> unchanged(this) && closeRequests == old(closeRequests)
      ensures audio != null ==>
        && audio.State() == old(audio.State()).(paused := true, currentTime := 0)
        && audio.listeners == old(audio.listeners)
        && closeRequests == old(closeRequests) + 1
        && isPlaying == old(isPlaying) && currentTime == old(currentTime)
        && duration == old(duration) && subscribed == old(subscribed)
    {
      if audio == null {
        return;
      }
      audio.Pause();
      audio.Seek(0);
      closeRequests := closeRequests + 1;
    }

    /** Move the element and the read-out to the same position. */
    method HandleSeek(t: nat)
      modifies this, audio
      ensures audio == null ==> unchanged(this)
      ensures audio != null ==>
        && audio.State() == old(audio.State()).(currentTime := t)
        && audio.listeners == old(audio.listeners)
        && currentTime == t == audio.currentTime
        && isPlaying == old(isPlaying) && duration == old(duration)
        && closeRequests == old(closeRequests) && subscribed == old(subscribed)
    {
      if audio == null {
        return;
      }
      audio.Seek(t);
      currentTime := t;
    }
  }

  /** With the effect running, pressing play/pause and then delivering the event the element
      fires flips the displayed state, and display and element agree again. */
  method PlayPauseRoundTrip(audio: AudioHandle) returns (before: bool, after: bool, synced: bool)
    modifies audio
    ensures after == !before && synced
  {
    var t := new Transport(audio);
    t.RunEffect();
    before := t.isPlaying;
    t.HandlePlayPause();
    if before {
      t.Dispatch(t.subscribed[3]);
    } else {
      t.Dispatch(t.subscribed[2]);
    }
    after := t.isPlaying;
    synced := after == !audio.paused;
  }

  /** Without an element, every control leaves the transport as it was. */
  method NoElementIsInert(t: nat) returns (closes: nat, shown: nat)
    ensures closes == 0 && shown == 0
  {
    var tr := new Transport(null);
    tr.RunEffect();
    tr.HandlePlayPause();
    tr.HandleStop();
    tr.HandleSeek(t);
    closes := tr.closeRequests;
    shown := tr.currentTime;
  }
}
