/** One pad button: the label it shows, the file picker behind it and the long-press
    detector that decides whether a press loads a file or triggers the pad. */
module AudioPad {
  import opened Media
  import opened Pads

  /** The longest name shown in full, and how much of a longer one is kept. */
  const MaxLabel: nat := 15
  const KeptPrefix: nat := 12
  const Ellipsis: string := "..."

  /** The label of a pad: a name of at most fifteen characters as it is, a longer one cut
      to its first twelve characters followed by "...". */
  function TruncateFileName(name: string): (r: string)
    ensures |r| <= MaxLabel
    ensures |name| <= MaxLabel ==> r == name
    ensures |name| > MaxLabel ==> |r| == MaxLabel && r[..KeptPrefix] == name[..KeptPrefix] && r[KeptPrefix..] == Ellipsis
  {
    if |name| <= MaxLabel then name else name[..KeptPrefix] + Ellipsis
  }

  /** A label is left alone by a second truncation. */
  lemma TruncateIdempotent(name: string)
    ensures TruncateFileName(TruncateFileName(name)) == TruncateFileName(name)
  {
  }

  /** Every label is a prefix of its name or a prefix of it followed by the ellipsis, and
      two long names that agree on their first twelve characters get the same label. */
  lemma TruncateKeepsPrefix(name: string, other: string)
    ensures var r := TruncateFileName(name);
      (r == name) || (|name| > MaxLabel && r == name[..KeptPrefix] + Ellipsis)
    ensures |name| > MaxLabel && |other| > MaxLabel && name[..KeptPrefix] == other[..KeptPrefix]
      ==> TruncateFileName(name) == TruncateFileName(other)
  {
  }

  /** The caption under the pad's icon: none for a missing or empty name, else the
      truncated name. */
  function Caption(p: PadData): (r: Option<string>)
    ensures r.Some? <==> p.fileName.Some? && p.fileName.value != ""
    ensures r.Some? ==> |r.value| <= MaxLabel && r.value == TruncateFileName(p.fileName.value)
  {
    if p.fileName.Some? && p.fileName.value != "" then Some(TruncateFileName(p.fileName.value)) else None
  }

  /** The two MIME types the picker hands on. */
  predicate IsSupportedType(mime: string) {
    mime == "audio/mpeg" || mime == "audio/wav"
  }

  /** The first chosen file, if there is one and its type is supported. */
  function AcceptedFile(files: seq<File>): (r: Option<File>)
    ensures r.Some? <==> |files| > 0 && IsSupportedType(files[0].mime)
    ensures r.Some? ==> r.value == files[0]
  {
    if |files| > 0 && IsSupportedType(files[0].mime) then Some(files[0]) else None
  }

  /** A request to load `file` onto pad `padId`. */
  datatype LoadRequest = LoadRequest(padId: int, file: File)

  /** The pad's input state: the one long-press timer slot, the timers the platform still
      holds (scheduled, neither cleared nor fired), how many timer ids have been handed out,
      how often the file picker has been opened, and the picker's value. */
  class PadInput {
    const pad: PadData
    var longPressTimer: Option<nat>
    var pending: set<nat>
    var nextTimer: nat
    var pickerOpens: nat
    var inputValue: string

    /** Every timer id, in the slot or still scheduled, was handed out. The timer in the
        slot may already have gone off: firing does not clear the slot. */
    ghost predicate Valid()
      reads this
    {
      && (longPressTimer.Some? ==> longPressTimer.value < nextTimer)
      && (forall t :: t in pending ==> t < nextTimer)
    }

    constructor (pad: PadData)
      ensures Valid()
      ensures this.pad == pad && longPressTimer == None && pending == {}
      ensures pickerOpens == 0 && inputValue == ""
    {
      this.pad := pad;
      longPressTimer := None;
      pending := {};
      nextTimer := 0;
      pickerOpens := 0;
      inputValue := "";
    }

    /** Scheduling the long-press timer; the slot is overwritten, and a timer it held is
        not cleared. */
    method StartTimer()
      requires Valid()
      modifies this
      ensures Valid()
      ensures longPressTimer == Some(old(nextTimer))
      ensures pending == old(pending) + {old(nextTimer)} && old(nextTimer) !in old(pending)
      ensures nextTimer == old(nextTimer) + 1
      ensures pickerOpens == old(pickerOpens) && inputValue == old(inputValue)
    {
      var t := nextTimer;
      nextTimer := nextTimer + 1;
      pending := pending + {t};
      longPressTimer := Some(t);
    }

    /** Clearing the timer in the slot, if any, and emptying the slot. */
    method CancelTimer()
      requires Valid()
      modifies this
      ensures Valid()
      ensures longPressTimer == None
      ensures old(longPressTimer).None? ==> pending == old(pending)
      ensures old(longPressTimer).Some? ==> pending == old(pending) - {old(longPressTimer).value}
      ensures nextTimer == old(nextTimer) && pickerOpens == old(pickerOpens) && inputValue == old(inputValue)
    {
      if longPressTimer.Some? {
        pending := pending - {longPressTimer.value};
        longPressTimer := None;
      }
    }

    method HandleMouseDown()
      requires Valid()
      modifies this
      ensures Valid()
      ensures longPressTimer == Some(old(nextTimer)) && pending == old(pending) + {old(nextTimer)}
      ensures nextTimer == old(nextTimer) + 1 && pickerOpens == old(pickerOpens) && inputValue == old(inputValue)
    {
      StartTimer();
    }

    method HandleTouchStart()
      requires Valid()
      modifies this
      ensures Valid()
      ensures longPressTimer == Some(old(nextTimer)) && pending == old(pending) + {old(nextTimer)}
      ensures nextTimer == old(nextTimer) + 1 && pickerOpens == old(pickerOpens) && inputValue == old(inputValue)
    {
      StartTimer();
    }

    /** Releasing (or leaving) the pad: a timer in the slot is cleared; an empty slot
        changes nothing. */
    method HandleMouseUp()
      requires Valid()
      modifies this
      ensures Valid()
      ensures longPressTimer == None
      ensures old(longPressTimer).None? ==> pending == old(pending)
      ensures old(longPressTimer).Some? ==> pending == old(pending) - {old(longPressTimer).value}
      ensures nextTimer == old(nextTimer) && pickerOpens == old(pickerOpens) && inputValue == old(inputValue)
    {
      CancelTimer();
    }

    method HandleTouchEnd()
      requires Valid()
      modifies this
      ensures Valid()
      ensures longPressTimer == None
      ensures old(longPressTimer).None? ==> pending == old(pending)
      ensures old(longPressTimer).Some? ==> pending == old(pending) - {old(longPressTimer).value}
      ensures nextTimer == old(nextTimer) && pickerOpens == old(pickerOpens) && inputValue == old(inputValue)
    {
      CancelTimer();
    }

    /** Timer `t` going off: a timer that is still scheduled opens the file picker and is
        spent; the slot is not cleared. A cleared or spent timer never runs. */
    method Fire(t: nat)
      requires Valid()
      modifies this
      ensures Valid()
      ensures t in old(pending) ==> pending == old(pending) - {t} && pickerOpens == old(pickerOpens) + 1
      ensures t !in old(pending) ==> pending == old(pending) && pickerOpens == old(pickerOpens)
      ensures longPressTimer == old(longPressTimer) && nextTimer == old(nextTimer) && inputValue == old(inputValue)
    {
      if t in pending {
        pending := pending - {t};
        pickerOpens := pickerOpens + 1;
      }
    }

    /** A click: with a timer in the slot, the timer is cleared and nothing is triggered;
        otherwise the pad is triggered exactly when it is bound. */
    method HandleClick() returns (trigger: Option<int>)
      requires Valid()
      modifies this
      ensures Valid()
      ensures trigger.Some? <==> old(longPressTimer).None? && pad.audioUrl.Some?
      ensures trigger.Some? ==> trigger.value == pad.id
      ensures longPressTimer == None
      ensures old(longPressTimer).Some? ==> pending == old(pending) - {old(longPressTimer).value}
      ensures old(longPressTimer).None? ==> pending == old(pending)
      ensures nextTimer == old(nextTimer) && pickerOpens == old(pickerOpens) && inputValue == old(inputValue)
    {
      if longPressTimer.Some? {
        pending := pending - {longPressTimer.value};
        longPressTimer := None;
        trigger := None;
      } else if pad.audioUrl.Some? {
        trigger := Some(pad.id);
      } else {
        trigger := None;
      }
    }

    /** The picker reporting the chosen files: a load of the first file onto this pad is
        requested exactly when that file has a supported type; the picker is reset in every
        case. */
    method HandleFileChange(files: seq<File>) returns (request: Option<LoadRequest>)
      modifies this`inputValue
      ensures request.Some? <==> AcceptedFile(files).Some?
      ensures request.Some? ==> request.value == LoadRequest(pad.id, files[0])
      ensures inputValue == ""
    {
      var file := AcceptedFile(files);
      if file.Some? {
        request := Some(LoadRequest(pad.id, file.value));
      } else {
        request := None;
      }
      inputValue := "";
    }
  }

  /** A long press on a bound pad opens the picker, and releasing it still triggers the
      pad: the release empties the slot before the click sees it. */
  method LongPressThenRelease(pad: PadData) returns (opens: nat, trigger: Option<int>)
    ensures opens == 1
    ensures trigger == if pad.audioUrl.Some? then Some(pad.id) else None
  {
    var input := new PadInput(pad);
    input.HandleMouseDown();
    var t := input.longPressTimer.value;
    input.Fire(t);
    input.HandleMouseUp();
    trigger := input.HandleClick();
    opens := input.pickerOpens;
  }

  /** A short press is a plain click: the timer is cleared before it goes off, the picker
      stays closed, and a bound pad is triggered. */
  method ShortPress(pad: PadData) returns (opens: nat, trigger: Option<int>)
    ensures opens == 0
    ensures trigger == if pad.audioUrl.Some? then Some(pad.id) else None
  {
    var input := new PadInput(pad);
    input.HandleMouseDown();
    var t := input.longPressTimer.value;
    input.HandleMouseUp();
    input.Fire(t);
    trigger := input.HandleClick();
    opens := input.pickerOpens;
  }

  /** Two press starts without a release in between overwrite the slot: the first timer is
      never cleared, so it opens the picker even though the pad was released in time. */
  method DoublePressOrphansTimer(pad: PadData) returns (opens: nat)
    ensures opens == 1
  {
    var input := new PadInput(pad);
    input.HandleTouchStart();
    var first := input.longPressTimer.value;
    input.HandleMouseDown();
    input.HandleMouseUp();
    input.Fire(first);
    opens := input.pickerOpens;
  }
}
