/** The soundboard's state as a value, and what each handler of the application does to
    it. The handle of every pad is seen through its state, keyed by the pad's id. */
module BoardSpec {
  import opened Media
  import opened Pads

  /** `panel` is the panel on display (1 picks the first, anything else the second);
      `playing` is the id of the pad in the playing slot; `handles` holds the state of the
      one audio handle made for each pad id that has been played; `nextUrl` is the next
      object URL the browser will hand out and `liveUrls` the ones not yet revoked. */
  datatype Board = Board(
    panel: int,
    pads1: seq<PadData>,
    pads2: seq<PadData>,
    playing: Option<int>,
    handles: map<int, HandleState>,
    nextUrl: Url,
    liveUrls: set<Url>)

  /** Outcome of reading the sample store at start-up. */
  datatype StoreLoad = Loaded(records: seq<StoredRecord>) | Missing | Failed

  function Current(b: Board): seq<PadData> {
    if b.panel == 1 then b.pads1 else b.pads2
  }

  function CurrentStart(b: Board): int {
    if b.panel == 1 then Panel1Start else Panel2Start
  }

  /** The board with the panel on display replaced. */
  function WithCurrent(b: Board, pads: seq<PadData>): Board {
    if b.panel == 1 then b.(pads1 := pads) else b.(pads2 := pads)
  }

  /** The pad carrying `id`, looked up by the id ranges of the two panels. */
  function PadById(b: Board, id: int): Option<PadData> {
    if Panel1Start <= id < Panel1Start + PanelSize && id - Panel1Start < |b.pads1| then Some(b.pads1[id - Panel1Start])
    else if Panel2Start <= id < Panel2Start + PanelSize && id - Panel2Start < |b.pads2| then Some(b.pads2[id - Panel2Start])
    else None
  }

  /** Every URL a pad of `pads` carries was handed out before `next`. */
  predicate UrlsBelow(pads: seq<PadData>, next: Url) {
    forall k :: 0 <= k < |pads| && pads[k].audioUrl.Some? ==> pads[k].audioUrl.value < next
  }

  /** A handle just made for `url` by the application: paused at 0 and set to loop. */
  function Created(url: Url): HandleState {
    HandleState(true, 0, Some(url), true, None)
  }

  /** Paused and moved back to the start. */
  function Rewound(s: HandleState): HandleState {
    s.(paused := true, currentTime := 0)
  }

  /** Paused and detached from its source. */
  function Emptied(s: HandleState): HandleState {
    s.(paused := true, src := None)
  }

  /** Both panels keep their slots, and every live URL and every URL on a pad lies below
      `nextUrl`. */
  ghost predicate PadsOk(b: Board) {
    && PanelShape(b.pads1, Panel1Start)
    && PanelShape(b.pads2, Panel2Start)
    && (forall u :: u in b.liveUrls ==> u < b.nextUrl)
    && UrlsBelow(b.pads1, b.nextUrl)
    && UrlsBelow(b.pads2, b.nextUrl)
  }

  /** Handles exist only for bound pads, the playing slot names a pad that has a handle,
      no handle but the playing one is audible, and every handle loops. */
  ghost predicate HandlesOk(b: Board) {
    && (forall id :: id in b.handles ==> PadById(b, id).Some? && PadById(b, id).value.audioUrl.Some?)
    && (b.playing.Some? ==> b.playing.value in b.handles)
    && (forall id :: id in b.handles && !b.handles[id].paused ==> b.playing == Some(id))
    && (forall id :: id in b.handles ==> b.handles[id].loop)
  }

  /** What the application keeps true between events. */
  ghost predicate Inv(b: Board) {
    PadsOk(b) && HandlesOk(b)
  }

  /** The highlight a pad shows: it is in the playing slot and its handle is not paused. */
  predicate PadIsPlaying(b: Board, id: int) {
    b.playing == Some(id) && id in b.handles && !b.handles[id].paused
  }

  // ---------------------------------------------------------------------------------
  // The single steps a handler takes

  /** Revoking `revoked` if it is a URL, taking the next URL and binding the pads carrying
      `padId` on the panel on display to `file` under it. */
  function BindStep(b: Board, padId: int, file: File, revoked: Option<Url>): Board {
    var live := if revoked.Some? then b.liveUrls - {revoked.value} else b.liveUrls;
    WithCurrent(b, Rebind(Current(b), padId, file, b.nextUrl)).(nextUrl := b.nextUrl + 1, liveUrls := live + {b.nextUrl})
  }

  /** Pausing the handle of `id`, if there is one, and detaching its source. */
  function EmptyStep(b: Board, id: int): Board {
    if id in b.handles then b.(handles := b.handles[id := Emptied(b.handles[id])]) else b
  }

  /** Pausing the handle of `id`, if there is one, and moving it back to the start. */
  function RewindStep(b: Board, id: int): Board {
    if id in b.handles then b.(handles := b.handles[id := Rewound(b.handles[id])]) else b
  }

  /** Making a looping handle on `url` for `id` unless it has one. */
  function AcquireStep(b: Board, id: int, url: Url): Board {
    if id in b.handles then b else b.(handles := b.handles[id := Created(url)])
  }

  /** Setting the paused flag of the handle of `id`, if there is one. */
  function PauseStep(b: Board, id: int, p: bool): Board {
    if id in b.handles then b.(handles := b.handles[id := b.handles[id].(paused := p)]) else b
  }

  /** Binding keeps the invariant and the slots: the new URL lies above every URL handed
      out before, and a bound pad stays bound. */
  lemma BindStepKeepsInv(b: Board, padId: int, file: File, revoked: Option<Url>)
    requires Inv(b)
    ensures var b' := BindStep(b, padId, file, revoked);
      Inv(b') && SameSlots(b.pads1, b'.pads1) && SameSlots(b.pads2, b'.pads2)
  {
    var b' := BindStep(b, padId, file, revoked);
    var cur := Current(b);
    var r := Rebind(cur, padId, file, b.nextUrl);
    forall k | 0 <= k < |r|
      ensures r[k].id == cur[k].id && r[k].color == cur[k].color
      ensures cur[k].audioUrl.Some? ==> r[k].audioUrl.Some?
      ensures r[k].audioUrl.Some? ==> r[k].audioUrl.value < b'.nextUrl
    {
    }
    assert PadsOk(b');
    forall id | id in b'.handles
      ensures PadById(b', id).Some? && PadById(b', id).value.audioUrl.Some?
    {
      assert PadById(b, id).Some?;
    }
  }

  /** Pausing and moving a handle back to the start keeps the invariant. */
  lemma RewindStepKeepsInv(b: Board, id: int)
    requires Inv(b)
    ensures Inv(RewindStep(b, id))
  {
    var b' := RewindStep(b, id);
    forall j | j in b'.handles
      ensures PadById(b', j) == PadById(b, j) && j in b.handles
      ensures b'.handles[j].loop && (!b'.handles[j].paused ==> b'.playing == Some(j))
    {
    }
  }

  /** Making the handle of a bound pad and then starting or toggling it keeps the
      invariant, provided the pad in the playing slot, if it is another, is paused. */
  lemma StartStepKeepsInv(b: Board, padId: int, url: Url)
    requires Inv(b)
    requires PadById(b, padId).Some? && PadById(b, padId).value.audioUrl.Some?
    requires b.playing.Some? && b.playing.value != padId ==> b.handles[b.playing.value].paused
    ensures Inv(StartStep(b, padId, url))
  {
    var b1 := AcquireStep(b, padId, url);
    var b' := StartStep(b, padId, url);
    assert b'.pads1 == b.pads1 && b'.pads2 == b.pads2;
    assert b'.handles.Keys == b.handles.Keys + {padId};
    forall j | j in b'.handles
      ensures PadById(b', j).Some? && PadById(b', j).value.audioUrl.Some?
      ensures b'.handles[j].loop
      ensures !b'.handles[j].paused ==> b'.playing == Some(j)
    {
      if j != padId {
        assert b'.handles[j] == b.handles[j];
      }
    }
  }

  // ---------------------------------------------------------------------------------
  // The handlers

  /** Loading `file` onto pad `padId` of the panel on display: revoke the pad's URL and bind
      the pad to a new one, then pause and empty the pad's handle if it has one (the handle
      stays in place). A pad id the panel on display does not hold changes nothing. */
  function LoadAudio(b: Board, padId: int, file: File): Board {
    match FindPad(Current(b), padId)
    case None => b
    case Some(k) => EmptyStep(BindStep(b, padId, file, Current(b)[k].audioUrl), padId)
  }

  /** Starting bound pad `padId` whose URL is `url`: the pad's handle is made (looping) if
      it has none; then either the pad in the playing slot is toggled between paused and
      playing, or the pad starts and takes the playing slot. */
  function StartStep(b: Board, padId: int, url: Url): (r: Board)
    ensures padId in r.handles && r.handles.Keys == b.handles.Keys + {padId}
    ensures r.pads1 == b.pads1 && r.pads2 == b.pads2 && r.panel == b.panel
    ensures b.playing != Some(padId) ==> r.playing == Some(padId) && !r.handles[padId].paused
    ensures b.playing == Some(padId) ==> r.playing == b.playing
  {
    var b1 := AcquireStep(b, padId, url);
    if b.playing == Some(padId) then PauseStep(b1, padId, !b1.handles[padId].paused)
    else PauseStep(b1, padId, false).(playing := Some(padId))
  }

  /** Triggering bound pad `padId` whose URL is `url`: a different pad in the playing slot
      is paused and rewound first. */
  function TriggerStep(b: Board, padId: int, url: Url): (r: Board)
    ensures r.playing == Some(padId) && padId in r.handles
    ensures b.playing.Some? && b.playing.value != padId && b.playing.value in b.handles ==>
      b.playing.value in r.handles && r.handles[b.playing.value].paused
  {
    StartStep(if b.playing.Some? && b.playing.value != padId then RewindStep(b, b.playing.value) else b, padId, url)
  }

  /** Triggering pad `padId` of the panel on display; an unknown or unbound pad changes
      nothing. */
  function PlayPause(b: Board, padId: int): (r: Board)
    ensures r.playing == b.playing || r.playing == Some(padId)
  {
    match FindPad(Current(b), padId)
    case None => b
    case Some(k) =>
      var pad := Current(b)[k];
      if pad.audioUrl.None? then b else TriggerStep(b, padId, pad.audioUrl.value)
  }

  /** Closing the player: the playing pad's handle is paused and rewound and the slot is
      emptied; with nothing playing, nothing changes. */
  function ClosePlayer(b: Board): (r: Board)
    ensures r.playing.None? && r.handles.Keys == b.handles.Keys
    ensures r.pads1 == b.pads1 && r.pads2 == b.pads2 && r.panel == b.panel
  {
    match b.playing
    case None => b
    case Some(q) => RewindStep(b, q).(playing := None)
  }

  /** The URLs from `lo` up to `hi`, made in one hydration pass. */
  function UrlRange(lo: Url, hi: Url): (r: set<Url>)
    ensures forall u :: u in r <==> lo <= u < hi
    decreases hi - lo
  {
    if hi <= lo then {} else UrlRange(lo, hi - 1) + {hi - 1}
  }

  /** Start-up hydration: a failed or absent read, an empty list or an unmounted
      application leaves the board alone; otherwise each panel takes the records in its id
      range that carry a payload, the first panel's pass making its URLs first. */
  function HydrateBoard(b: Board, load: StoreLoad, mounted: bool): (r: Board)
    requires |b.pads1| == PanelSize && |b.pads2| == PanelSize
    ensures |r.pads1| == PanelSize && |r.pads2| == PanelSize
    ensures r.panel == b.panel && r.playing == b.playing && r.handles == b.handles
    ensures r.nextUrl >= b.nextUrl && b.liveUrls <= r.liveUrls
  {
    match load
    case Failed => b
    case Missing => b
    case Loaded(recs) =>
      if !mounted || |recs| == 0 then b
      else
        var mid := b.nextUrl + CountAdmitted(recs, Panel1Start);
        var last := mid + CountAdmitted(recs, Panel2Start);
        b.(pads1 := Hydrated(b.pads1, recs, Panel1Start, b.nextUrl),
           pads2 := Hydrated(b.pads2, recs, Panel2Start, mid),
           nextUrl := last,
           liveUrls := b.liveUrls + UrlRange(b.nextUrl, last))
  }

  /** Switching the panel on display. */
  function SelectPanel(b: Board, n: int): Board {
    b.(panel := n)
  }

  // ---------------------------------------------------------------------------------
  // Loading a file onto a pad

  /** A pad id outside the panel on display is ignored. */
  lemma LoadAudioForeignPadIsNoOp(b: Board, padId: int, file: File)
    requires Inv(b)
    requires !(CurrentStart(b) <= padId < CurrentStart(b) + PanelSize)
    ensures LoadAudio(b, padId, file) == b
  {
    FindInPanel(Current(b), CurrentStart(b), padId);
  }

  /** Loading onto a pad of the panel on display rebinds that pad alone, under a URL no pad
      had and that was not live; revokes the pad's old URL; pauses and empties the pad's
      existing handle but keeps it; leaves the other panel, the other handles and the
      playing slot alone. */
  lemma LoadAudioRebindsOnlyThatPad(b: Board, padId: int, file: File)
    requires Inv(b)
    requires CurrentStart(b) <= padId < CurrentStart(b) + PanelSize
    ensures var b' := LoadAudio(b, padId, file);
      var k := padId - CurrentStart(b);
      && b'.panel == b.panel
      && Current(b') == Current(b)[k := Bind(Current(b)[k], file, b.nextUrl)]
      && (if b.panel == 1 then b'.pads2 == b.pads2 else b'.pads1 == b.pads1)
      && b'.playing == b.playing
      && b'.handles == (if padId in b.handles then b.handles[padId := Emptied(b.handles[padId])] else b.handles)
      && b.nextUrl !in b.liveUrls
      && (forall j :: 0 <= j < PanelSize ==> b.pads1[j].audioUrl != Some(b.nextUrl) && b.pads2[j].audioUrl != Some(b.nextUrl))
      && (Current(b)[k].audioUrl.Some? ==> Current(b)[k].audioUrl.value !in b'.liveUrls)
      && b'.liveUrls == (if Current(b)[k].audioUrl.Some? then b.liveUrls - {Current(b)[k].audioUrl.value} else b.liveUrls) + {b.nextUrl}
      && b'.nextUrl == b.nextUrl + 1
  {
    var k := padId - CurrentStart(b);
    FindInPanel(Current(b), CurrentStart(b), padId);
    var b1 := BindStep(b, padId, file, Current(b)[k].audioUrl);
    assert LoadAudio(b, padId, file) == EmptyStep(b1, padId);
    RebindOnlyThatPad(Current(b), CurrentStart(b), padId, file, b.nextUrl);
    assert Current(b1) == Current(b)[k := Bind(Current(b)[k], file, b.nextUrl)];
    assert b.nextUrl !in b.liveUrls;
  }

  lemma LoadAudioPreservesInv(b: Board, padId: int, file: File)
    requires Inv(b)
    ensures Inv(LoadAudio(b, padId, file))
  {
    match FindPad(Current(b), padId)
    case None =>
    case Some(k) =>
      var b1 := BindStep(b, padId, file, Current(b)[k].audioUrl);
      BindStepKeepsInv(b, padId, file, Current(b)[k].audioUrl);
      assert Inv(EmptyStep(b1, padId));
  }

  /** Loading never changes which pad sits where or its colour. */
  lemma LoadAudioKeepsSlots(b: Board, padId: int, file: File)
    requires Inv(b)
    ensures SameSlots(b.pads1, LoadAudio(b, padId, file).pads1)
    ensures SameSlots(b.pads2, LoadAudio(b, padId, file).pads2)
  {
    if CurrentStart(b) <= padId < CurrentStart(b) + PanelSize {
      LoadAudioRebindsOnlyThatPad(b, padId, file);
      RebindOnlyThatPad(Current(b), CurrentStart(b), padId, file, b.nextUrl);
    } else {
      LoadAudioForeignPadIsNoOp(b, padId, file);
    }
  }

  // ---------------------------------------------------------------------------------
  // Triggering a pad

  /** A pad id outside the panel on display, or an unbound pad, is ignored. */
  lemma PlayPauseIgnored(b: Board, padId: int)
    requires Inv(b)
    requires !(CurrentStart(b) <= padId < CurrentStart(b) + PanelSize)
          || Current(b)[padId - CurrentStart(b)].audioUrl.None?
    ensures PlayPause(b, padId) == b
  {
    FindInPanel(Current(b), CurrentStart(b), padId);
  }

  /** Triggering changes the handles and the playing slot, never the pads or the URLs. */
  lemma PlayPauseKeepsPads(b: Board, padId: int)
    ensures var b' := PlayPause(b, padId);
      b' == b.(handles := b'.handles, playing := b'.playing)
  {
  }

  /** Handles are made lazily and reused: triggering a bound pad adds its id to the handles
      if it was missing, with a looping handle on the pad's URL, playing from 0; an
      existing handle is kept, with only its paused flag possibly changed. */
  lemma PlayPauseAcquiresHandle(b: Board, padId: int)
    requires Inv(b)
    requires CurrentStart(b) <= padId < CurrentStart(b) + PanelSize
    requires Current(b)[padId - CurrentStart(b)].audioUrl.Some?
    ensures var b' := PlayPause(b, padId);
      && b'.handles.Keys == b.handles.Keys + {padId}
      && (padId in b.handles ==> b'.handles[padId] == b.handles[padId].(paused := b'.handles[padId].paused))
      && (padId !in b.handles ==> b'.handles[padId] == Created(Current(b)[padId - CurrentStart(b)].audioUrl.value).(paused := false))
  {
    FindInPanel(Current(b), CurrentStart(b), padId);
    var url := Current(b)[padId - CurrentStart(b)].audioUrl.value;
    var b1 := if b.playing.Some? && b.playing.value != padId then RewindStep(b, b.playing.value) else b;
    assert b1.handles.Keys == b.handles.Keys;
    assert padId in b.handles ==> b1.handles[padId] == b.handles[padId];
    var b2 := AcquireStep(b1, padId, url);
    assert b2.handles.Keys == b.handles.Keys + {padId};
    assert padId in b.handles ==> b2.handles[padId] == b.handles[padId];
    assert padId !in b.handles ==> b2.handles[padId] == Created(url) && b.playing != Some(padId);
  }

  /** Triggering a bound pad that is not in the playing slot pauses and rewinds the pad
      that was, starts the new pad and puts it in the slot; no other handle changes. */
  lemma PlayPauseSwitches(b: Board, padId: int)
    requires Inv(b)
    requires CurrentStart(b) <= padId < CurrentStart(b) + PanelSize
    requires Current(b)[padId - CurrentStart(b)].audioUrl.Some?
    requires b.playing != Some(padId)
    ensures var b' := PlayPause(b, padId);
      && b'.playing == Some(padId)
      && !b'.handles[padId].paused
      && (b.playing.Some? ==> b'.handles[b.playing.value] == Rewound(b.handles[b.playing.value]))
      && (forall j :: j in b.handles && j != padId && Some(j) != b.playing ==> j in b'.handles && b'.handles[j] == b.handles[j])
  {
    FindInPanel(Current(b), CurrentStart(b), padId);
  }

  /** Re-triggering the playing pad flips its paused flag and nothing else: the position is
      not touched and the slot keeps the pad. */
  lemma PlayPauseToggles(b: Board, padId: int)
    requires Inv(b)
    requires CurrentStart(b) <= padId < CurrentStart(b) + PanelSize
    requires b.playing == Some(padId)
    ensures var b' := PlayPause(b, padId);
      b' == b.(handles := b.handles[padId := b.handles[padId].(paused := !b.handles[padId].paused)])
  {
    FindInPanel(Current(b), CurrentStart(b), padId);
    assert PadById(b, padId) == Some(Current(b)[padId - CurrentStart(b)]);
  }

  lemma PlayPausePreservesInv(b: Board, padId: int)
    requires Inv(b)
    ensures Inv(PlayPause(b, padId))
  {
    match FindPad(Current(b), padId)
    case None =>
    case Some(k) =>
      var pad := Current(b)[k];
      if pad.audioUrl.Some? {
        FindInPanel(Current(b), CurrentStart(b), padId);
        var b1 := if b.playing.Some? && b.playing.value != padId then RewindStep(b, b.playing.value) else b;
        RewindStepKeepsInv(b, if b.playing.Some? then b.playing.value else padId);
        assert PadById(b1, padId) == Some(pad);
        StartStepKeepsInv(b1, padId, pad.audioUrl.value);
      }
  }

  /** Re-triggering the playing pad twice restores the board exactly (pause, then resume
      where it was). */
  lemma PlayPauseToggleTwice(b: Board, padId: int)
    requires Inv(b)
    requires CurrentStart(b) <= padId < CurrentStart(b) + PanelSize
    requires b.playing == Some(padId)
    ensures PlayPause(PlayPause(b, padId), padId) == b
  {
    PlayPauseToggles(b, padId);
    PlayPausePreservesInv(b, padId);
    var b1 := PlayPause(b, padId);
    PlayPauseToggles(b1, padId);
    assert b1.handles[padId := b1.handles[padId].(paused := !b1.handles[padId].paused)] == b.handles;
  }

  /** The highlight of a pad is exactly the audibility of its handle, so at most one pad is
      highlighted. */
  lemma PlayingIffAudible(b: Board, id: int)
    requires Inv(b)
    ensures PadIsPlaying(b, id) <==> id in b.handles && !b.handles[id].paused
    ensures forall j :: PadIsPlaying(b, id) && PadIsPlaying(b, j) ==> j == id
  {
  }

  // ---------------------------------------------------------------------------------
  // Closing the player

  /** Closing with nothing playing changes nothing; otherwise the playing handle is paused
      and rewound, the slot is emptied and nothing else changes. */
  lemma ClosePlayerStops(b: Board)
    requires Inv(b)
    ensures b.playing.None? ==> ClosePlayer(b) == b
    ensures b.playing.Some? ==> ClosePlayer(b) == b.(handles := b.handles[b.playing.value := Rewound(b.handles[b.playing.value])], playing := None)
  {
  }

  /** Closing twice is closing once. */
  lemma ClosePlayerIdempotent(b: Board)
    ensures ClosePlayer(ClosePlayer(b)) == ClosePlayer(b)
  {
  }

  /** After closing, every handle is paused and the invariant still holds. */
  lemma ClosePlayerSilences(b: Board)
    requires Inv(b)
    ensures Inv(ClosePlayer(b))
    ensures forall id :: id in ClosePlayer(b).handles ==> ClosePlayer(b).handles[id].paused
  {
  }

  // ---------------------------------------------------------------------------------
  // Hydration

  /** Nothing is read, nothing is read successfully, or the application is gone: the board
      stays as it was. */
  lemma HydrateBoardNoOp(b: Board, load: StoreLoad, mounted: bool)
    requires Inv(b)
    requires load.Failed? || load.Missing? || !mounted || (load.Loaded? && |load.records| == 0)
    ensures HydrateBoard(b, load, mounted) == b
  {
  }

  /** Hydration leaves slots, handles, the playing slot and the panel on display alone,
      and keeps the invariant. */
  lemma HydrateBoardPreservesInv(b: Board, load: StoreLoad, mounted: bool)
    requires Inv(b)
    ensures var b' := HydrateBoard(b, load, mounted);
      && Inv(b')
      && SameSlots(b.pads1, b'.pads1) && SameSlots(b.pads2, b'.pads2)
      && b'.handles == b.handles && b'.playing == b.playing && b'.panel == b.panel
  {
    if load.Loaded? && mounted && |load.records| > 0 {
      var recs := load.records;
      var b' := HydrateBoard(b, load, mounted);
      var mid := b.nextUrl + CountAdmitted(recs, Panel1Start);
      HydrateKeepsSlots(b.pads1, recs, Panel1Start, b.nextUrl);
      HydrateKeepsSlots(b.pads2, recs, Panel2Start, mid);
      forall k | 0 <= k < PanelSize
        ensures b'.pads1[k].audioUrl.Some? ==> b'.pads1[k].audioUrl.value < b'.nextUrl
        ensures b'.pads2[k].audioUrl.Some? ==> b'.pads2[k].audioUrl.value < b'.nextUrl
        ensures b.pads1[k].audioUrl.Some? ==> b'.pads1[k].audioUrl.Some?
        ensures b.pads2[k].audioUrl.Some? ==> b'.pads2[k].audioUrl.Some?
      {
        HydrateUrls(b.pads1, recs, Panel1Start, b.nextUrl, k);
        HydrateUrls(b.pads2, recs, Panel2Start, mid, k);
      }
      assert PadsOk(b');
      forall id | id in b'.handles
        ensures PadById(b', id).Some? && PadById(b', id).value.audioUrl.Some?
      {
        assert id in b.handles;
      }
    }
  }

  // ---------------------------------------------------------------------------------
  // Reloading a pad that has been played

  /** As written, reloading a pad that already has a handle keeps that emptied handle, and
      the next trigger plays it: the handle has no source while the pad is bound to the
      new URL, so the new sample is never heard. That the handle ends up not paused
      reflects the model's assumption that a play always succeeds; a browser rejects the
      play of a handle without a source and leaves it paused, and the new sample is not
      heard either way. */
  lemma ReloadThenPlayUsesEmptiedHandle(b: Board, padId: int, file: File)
    requires Inv(b)
    requires CurrentStart(b) <= padId < CurrentStart(b) + PanelSize
    requires padId in b.handles
    ensures var b2 := PlayPause(LoadAudio(b, padId, file), padId);
      && PadById(b2, padId).Some? && PadById(b2, padId).value.audioUrl == Some(b.nextUrl)
      && padId in b2.handles
      && b2.handles[padId].src == None
      && !b2.handles[padId].paused
  {
    ReloadThenPlayShowsNewUrl(b, padId, file);
    LoadAudioRebindsOnlyThatPad(b, padId, file);
    LoadAudioPreservesInv(b, padId, file);
    var b1 := LoadAudio(b, padId, file);
    assert CurrentStart(b1) == CurrentStart(b);
    PlayPauseAcquiresHandle(b1, padId);
    if b1.playing == Some(padId) {
      PlayPauseToggles(b1, padId);
    } else {
      PlayPauseSwitches(b1, padId);
    }
  }

  /** After the reload and the trigger the pad carries the new URL. */
  lemma ReloadThenPlayShowsNewUrl(b: Board, padId: int, file: File)
    requires Inv(b)
    requires CurrentStart(b) <= padId < CurrentStart(b) + PanelSize
    ensures var b2 := PlayPause(LoadAudio(b, padId, file), padId);
      PadById(b2, padId).Some? && PadById(b2, padId).value.audioUrl == Some(b.nextUrl)
  {
    LoadAudioRebindsOnlyThatPad(b, padId, file);
    var b1 := LoadAudio(b, padId, file);
    var b2 := PlayPause(b1, padId);
    PlayPauseKeepsPads(b1, padId);
    assert CurrentStart(b1) == CurrentStart(b) && Current(b2) == Current(b1);
    assert PadById(b2, padId) == Some(Current(b2)[padId - CurrentStart(b)]);
  }

  /** Dropping the handle of `id`, and emptying the playing slot if it held `id`. */
  function DiscardStep(b: Board, id: int): Board {
    b.(handles := b.handles - {id}, playing := if b.playing == Some(id) then None else b.playing)
  }

  /** Loading as evidently intended: the pad's handle is discarded (and the playing slot
      emptied if it held the pad), so the next trigger makes a new handle on the new URL. */
  function LoadAudioCorrected(b: Board, padId: int, file: File): (r: Board)
    ensures FindPad(Current(b), padId).Some? ==> padId !in r.handles && r.playing != Some(padId)
    ensures forall id :: id != padId && id in b.handles ==> id in r.handles && r.handles[id] == b.handles[id]
  {
    match FindPad(Current(b), padId)
    case None => b
    case Some(k) => DiscardStep(BindStep(b, padId, file, Current(b)[k].audioUrl), padId)
  }

  /** Dropping a handle, and the playing slot with it, keeps the invariant. */
  lemma DiscardStepKeepsInv(b: Board, id: int)
    requires Inv(b)
    ensures Inv(DiscardStep(b, id))
  {
    var b' := DiscardStep(b, id);
    forall j | j in b'.handles
      ensures j in b.handles && b'.handles[j] == b.handles[j] && PadById(b', j) == PadById(b, j)
    {
    }
  }

  /** The corrected load differs from the load as written only in dropping the pad's handle
      and, if the pad was playing, the playing slot; so it keeps the invariant too. */
  lemma LoadAudioCorrectedPreservesInv(b: Board, padId: int, file: File)
    requires Inv(b)
    ensures var w := LoadAudio(b, padId, file);
      LoadAudioCorrected(b, padId, file)
        == if FindPad(Current(b), padId).None? then b else DiscardStep(w, padId)
    ensures Inv(LoadAudioCorrected(b, padId, file))
  {
    match FindPad(Current(b), padId)
    case None =>
    case Some(k) =>
      var b1 := BindStep(b, padId, file, Current(b)[k].audioUrl);
      BindStepKeepsInv(b, padId, file, Current(b)[k].audioUrl);
      DiscardStepKeepsInv(b1, padId);
      assert EmptyStep(b1, padId).handles - {padId} == b1.handles - {padId};
  }

  /** With the correction, triggering a freshly reloaded pad plays the new sample from the
      start. */
  lemma CorrectedReloadPlaysNewSample(b: Board, padId: int, file: File)
    requires Inv(b)
    requires CurrentStart(b) <= padId < CurrentStart(b) + PanelSize
    ensures var b2 := PlayPause(LoadAudioCorrected(b, padId, file), padId);
      && b2.playing == Some(padId)
      && padId in b2.handles
      && b2.handles[padId] == Created(b.nextUrl).(paused := false)
  {
    FindInPanel(Current(b), CurrentStart(b), padId);
    LoadAudioRebindsOnlyThatPad(b, padId, file);
    LoadAudioCorrectedPreservesInv(b, padId, file);
    var b1 := LoadAudioCorrected(b, padId, file);
    assert CurrentStart(b1) == CurrentStart(b);
    assert Current(b1)[padId - CurrentStart(b)].audioUrl == Some(b.nextUrl);
    PlayPauseAcquiresHandle(b1, padId);
    PlayPauseSwitches(b1, padId);
  }
}
