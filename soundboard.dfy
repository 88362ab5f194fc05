/** The application component: the two panels, the lazily filled map from pad id to audio
    handle, the playing slot, and the handlers that change them. Each handler is proved to
    move the abstract board exactly as the matching function of BoardSpec does. */
module SoundBoard {
  import opened Media
  import opened Pads
  import opened BoardSpec

  /** The playing slot: a pad id and the very handle that plays it. */
  datatype PlayingAudio = PlayingAudio(padId: int, audio: AudioHandle)

  class App {
    /** The two colour palettes, fixed for the life of the application. */
    const palette1: seq<Color>
    const palette2: seq<Color>

    var currentPanel: int
    var pads1: seq<PadData>
    var pads2: seq<PadData>
    var playingAudio: Option<PlayingAudio>
    var audioRefs: map<int, AudioHandle>
    /** The browser's object-URL pool: the next token it hands out and those not revoked. */
    var nextUrl: Url
    var liveUrls: set<Url>
    /** Cleared when the component unmounts; a late store read is then ignored. */
    var mounted: bool

    /** The state of the handle registered under each id, kept beside `audioRefs`. */
    ghost var handles: map<int, HandleState>

    /** The abstract board this object stands for. */
    ghost function Model(): Board
      reads this
    {
      Board(currentPanel, pads1, pads2,
            if playingAudio.Some? then Some(playingAudio.value.padId) else None,
            handles, nextUrl, liveUrls)
    }

    /** `handles` records, for every registered id, the current state of its handle. */
    ghost predicate Coupled()
      reads this`audioRefs, this`handles, audioRefs.Values
    {
      && audioRefs.Keys == handles.Keys
      && forall id :: id in audioRefs ==> audioRefs[id].State() == handles[id]
    }

    /** No handle is registered under two ids. */
    ghost predicate Injective()
      reads this`audioRefs
    {
      forall i, j :: i in audioRefs && j in audioRefs && i != j ==> audioRefs[i] != audioRefs[j]
    }

    /** What only the objects can say: `handles` mirrors the handles, no handle serves two
        ids, and the playing slot holds the handle registered for its pad. */
    ghost predicate Links()
      reads this`audioRefs, this`handles, this`playingAudio, audioRefs.Values
    {
      && Coupled()
      && Injective()
      && (playingAudio.Some? ==>
            playingAudio.value.padId in audioRefs && audioRefs[playingAudio.value.padId] == playingAudio.value.audio)
    }

    /** The board invariant, the links between the objects, and every pad keeping the
        colour its palette gave it. */
    ghost predicate Valid()
      reads this, audioRefs.Values
    {
      && Inv(Model())
      && Links()
      && |palette1| == PanelSize && |palette2| == PanelSize
      && (forall k :: 0 <= k < |pads1| ==> pads1[k].color == palette1[k])
      && (forall k :: 0 <= k < |pads2| ==> pads2[k].color == palette2[k])
    }

    /** Mounting: panel 1 on display, both panels of unbound pads, nothing playing. */
    constructor (palette1: seq<Color>, palette2: seq<Color>)
      requires |palette1| == PanelSize && |palette2| == PanelSize
      ensures Valid()
      ensures Model() == Board(1, DefaultPads(Panel1Start, palette1), DefaultPads(Panel2Start, palette2), None, map[], 0, {})
      ensures mounted
    {
      this.palette1 := palette1;
      this.palette2 := palette2;
      currentPanel := 1;
      pads1 := DefaultPads(Panel1Start, palette1);
      pads2 := DefaultPads(Panel2Start, palette2);
      playingAudio := None;
      audioRefs := map[];
      handles := map[];
      nextUrl := 0;
      liveUrls := {};
      mounted := true;
    }

    /** The effect's cleanup: a store read that completes afterwards is ignored. */
    method Unmount()
      requires Valid()
      modifies this`mounted
      ensures Valid() && Model() == old(Model()) && !mounted
    {
      mounted := false;
    }

    /** Pressing a panel button. */
    method SelectPanel(n: int)
      requires Valid()
      modifies this`currentPanel
      ensures Valid() && Model() == BoardSpec.SelectPanel(old(Model()), n)
    {
      currentPanel := n;
    }

    /** The store read completing at start-up: both panels are rebuilt from the records,
        each by its own pass over them. */
    method Hydrate(load: StoreLoad)
      requires Valid()
      modifies this`pads1, this`pads2, this`nextUrl, this`liveUrls
      ensures Valid() && Model() == HydrateBoard(old(Model()), load, mounted)
    {
      ghost var before := Model();
      if load.Failed? || load.Missing? || !mounted || |load.records| == 0 {
        return;
      }
      var stored := load.records;
      var next1, url1 := HydratePanel(pads1, stored, Panel1Start, nextUrl);
      var next2, url2 := HydratePanel(pads2, stored, Panel2Start, url1);
      SetPanels(next1, next2, url2);
      assert Model() == HydrateBoard(before, load, mounted);
      assert Inv(Model()) && SameSlots(before.pads1, pads1) && SameSlots(before.pads2, pads2) by {
        HydrateBoardPreservesInv(before, load, mounted);
      }
    }

    /** Storing both rebuilt panels; the URLs from the old `nextUrl` up to `last` have been
        made for them. */
    method SetPanels(next1: seq<PadData>, next2: seq<PadData>, last: Url)
      requires Links()
      modifies this`pads1, this`pads2, this`nextUrl, this`liveUrls
      ensures Links()
      ensures Model() == old(Model()).(pads1 := next1, pads2 := next2, nextUrl := last,
                                       liveUrls := old(liveUrls) + UrlRange(old(nextUrl), last))
    {
      pads1 := next1;
      pads2 := next2;
      liveUrls := liveUrls + UrlRange(nextUrl, last);
      nextUrl := last;
    }

    /** Pausing the handle of `id`, if there is one, and detaching its source; no other
        handle changes. */
    method EmptyHandle(id: int)
      requires Links()
      modifies this`handles, if id in audioRefs then {audioRefs[id]} else {}
      ensures Links() && Model() == EmptyStep(old(Model()), id)
      ensures id in old(audioRefs) ==> old(audioRefs[id]).State() == Emptied(old(audioRefs[id].State()))
      ensures forall h :: h in old(audioRefs.Values) ==> h.listeners == old(h.listeners)
    {
      if id !in audioRefs {
        return;
      }
      var h := audioRefs[id];
      h.Pause();
      h.ClearSource();
      handles := handles[id := h.State()];
      forall j | j in audioRefs && j != id
        ensures audioRefs[j].State() == handles[j]
      {
        assert audioRefs[j] != h;
      }
    }

    /** Pausing the handle of `id`, if there is one, and moving it back to 0; no other
        handle changes. */
    method RewindHandle(id: int)
      requires Links()
      modifies this`handles, if id in audioRefs then {audioRefs[id]} else {}
      ensures Links() && Model() == RewindStep(old(Model()), id)
      ensures forall h :: h in old(audioRefs.Values) ==> h.listeners == old(h.listeners)
    {
      if id !in audioRefs {
        return;
      }
      var h := audioRefs[id];
      h.Pause();
      h.Seek(0);
      handles := handles[id := h.State()];
      forall j | j in audioRefs && j != id
        ensures audioRefs[j].State() == handles[j]
      {
        assert audioRefs[j] != h;
      }
    }

    /** Pausing (`p`) or starting `audio`, the handle registered for `id`; no other handle
        changes. */
    method SetPaused(id: int, audio: AudioHandle, p: bool)
      requires Links() && id in audioRefs && audioRefs[id] == audio
      modifies this`handles, audio
      ensures Links() && Model() == PauseStep(old(Model()), id, p)
      ensures forall h :: h in old(audioRefs.Values) ==> h.listeners == old(h.listeners)
    {
      if p {
        audio.Pause();
      } else {
        audio.Play();
      }
      handles := handles[id := audio.State()];
      forall j | j in audioRefs && j != id
        ensures audioRefs[j].State() == handles[j]
      {
        assert audioRefs[j] != audio;
      }
    }

    /** The handle registered for `id`; if there is none, one is made on `url`, set to loop
        and registered. */
    method AcquireHandle(id: int, url: Url) returns (audio: AudioHandle)
      requires Links()
      modifies this`audioRefs, this`handles
      ensures Links() && Model() == AcquireStep(old(Model()), id, url)
      ensures audioRefs == old(audioRefs)[id := audio]
      ensures id in old(audioRefs) ==> audio == old(audioRefs[id])
      ensures id !in old(audioRefs) ==> fresh(audio) && audio.listeners == {}
      ensures forall j :: j in old(audioRefs) ==> j in audioRefs && audioRefs[j] == old(audioRefs[j])
      ensures old(audioRefs.Values) <= audioRefs.Values
    {
      if id in audioRefs {
        audio := audioRefs[id];
      } else {
        audio := new AudioHandle(url);
        audio.SetLoop(true);
        audioRefs := audioRefs[id := audio];
        handles := handles[id := audio.State()];
      }
    }

    /** Revoking `revoked` if it is a URL, taking a fresh object URL and binding the pads
        carrying `padId` on the panel on display to `file` under it. */
    method BindCurrent(padId: int, file: File, revoked: Option<Url>)
      requires Links()
      modifies this`pads1, this`pads2, this`nextUrl, this`liveUrls
      ensures Links() && Model() == BindStep(old(Model()), padId, file, revoked)
    {
      if revoked.Some? {
        liveUrls := liveUrls - {revoked.value};
      }
      var url := nextUrl;
      nextUrl := nextUrl + 1;
      liveUrls := liveUrls + {url};
      if currentPanel == 1 {
        pads1 := Rebind(pads1, padId, file, url);
      } else {
        pads2 := Rebind(pads2, padId, file, url);
      }
    }

    /** Putting pad `padId` and its registered handle in the playing slot. */
    method Claim(padId: int, audio: AudioHandle)
      requires Links() && padId in audioRefs && audioRefs[padId] == audio
      modifies this`playingAudio
      ensures Links() && Model() == old(Model()).(playing := Some(padId))
    {
      playingAudio := Some(PlayingAudio(padId, audio));
    }

    /** Emptying the playing slot. */
    method Release()
      requires Links()
      modifies this`playingAudio
      ensures Links() && Model() == old(Model()).(playing := None)
    {
      playingAudio := None;
    }

    /** Unregistering the handle of `id`, and emptying the playing slot if it holds `id`. */
    method DiscardHandle(id: int)
      requires Links()
      modifies this`audioRefs, this`handles, this`playingAudio
      ensures Links() && Model() == DiscardStep(old(Model()), id)
      ensures audioRefs == old(audioRefs) - {id}
    {
      audioRefs := audioRefs - {id};
      handles := handles - {id};
      if playingAudio.Some? && playingAudio.value.padId == id {
        playingAudio := None;
      }
    }

    /** Rebinding pad `padId` of the panel on display to `file` under a new URL (revoking
        `revoked`), then pausing and detaching the pad's handle if it has one. */
    method Reload(padId: int, file: File, revoked: Option<Url>)
      requires Links()
      modifies this`pads1, this`pads2, this`nextUrl, this`liveUrls, this`handles,
               if padId in audioRefs then {audioRefs[padId]} else {}
      ensures Links() && Model() == EmptyStep(BindStep(old(Model()), padId, file, revoked), padId)
      ensures audioRefs == old(audioRefs) && playingAudio == old(playingAudio)
      ensures padId in old(audioRefs) ==> old(audioRefs[padId]).State() == Emptied(old(audioRefs[padId].State()))
      ensures forall h :: h in old(audioRefs.Values) ==> h.listeners == old(h.listeners)
    {
      BindCurrent(padId, file, revoked);
      EmptyHandle(padId);
    }

    /** Reloading pad `padId` as above, then unregistering its handle, which is left paused
        and detached. */
    method ReloadAndDiscard(padId: int, file: File, revoked: Option<Url>)
      requires Links()
      modifies this`pads1, this`pads2, this`nextUrl, this`liveUrls, this`audioRefs, this`handles,
               this`playingAudio, audioRefs.Values
      ensures Links()
      ensures Model() == DiscardStep(EmptyStep(BindStep(old(Model()), padId, file, revoked), padId), padId)
      ensures audioRefs == old(audioRefs) - {padId}
      ensures padId in old(audioRefs) ==> old(audioRefs[padId]).State() == Emptied(old(audioRefs[padId].State()))
      ensures forall h :: h in old(audioRefs.Values) ==> h.listeners == old(h.listeners)
    {
      Reload(padId, file, revoked);
      DiscardHandle(padId);
    }

    /** A file chosen for pad `padId` of the panel on display, as the component does it: the
        pad is rebound under a new URL and its handle, if any, is paused and detached but
        stays registered (and stays in the playing slot if it was there). */
    method HandleLoadAudioAsWritten(padId: int, file: File)
      requires Valid()
      modifies this`pads1, this`pads2, this`nextUrl, this`liveUrls, this`handles, audioRefs.Values
      ensures Valid() && Model() == LoadAudio(old(Model()), padId, file)
      ensures audioRefs == old(audioRefs) && playingAudio == old(playingAudio)
      ensures forall h :: h in old(audioRefs.Values) ==> h.listeners == old(h.listeners)
    {
      ghost var before := Model();
      var current := if currentPanel == 1 then pads1 else pads2;
      var found := FindPad(current, padId);
      assert current == Current(before);
      if found.None? {
        return;
      }
      Reload(padId, file, current[found.value].audioUrl);
      assert Inv(Model()) && SameSlots(before.pads1, pads1) && SameSlots(before.pads2, pads2) by {
        LoadAudioPreservesInv(before, padId, file);
        LoadAudioKeepsSlots(before, padId, file);
      }
    }

    /** A file chosen for pad `padId` of the panel on display, with the correction recorded
        under Findings: the pad's old handle is paused and detached as in the component, and
        then also unregistered, so that the next trigger makes a handle on the new URL. */
    method HandleLoadAudio(padId: int, file: File)
      requires Valid()
      modifies this`pads1, this`pads2, this`nextUrl, this`liveUrls, this`audioRefs, this`handles,
               this`playingAudio, audioRefs.Values
      ensures Valid() && Model() == LoadAudioCorrected(old(Model()), padId, file)
      ensures audioRefs == if FindPad(Current(old(Model())), padId).None? then old(audioRefs)
                           else old(audioRefs) - {padId}
      ensures FindPad(Current(old(Model())), padId).Some? && padId in old(audioRefs) ==>
        old(audioRefs[padId]).State() == Emptied(old(audioRefs[padId].State()))
      ensures forall h :: h in old(audioRefs.Values) ==> h.listeners == old(h.listeners)
    {
      ghost var before := Model();
      var current := if currentPanel == 1 then pads1 else pads2;
      var found := FindPad(current, padId);
      assert current == Current(before);
      if found.None? {
        return;
      }
      ReloadAndDiscard(padId, file, current[found.value].audioUrl);
      assert Model() == LoadAudioCorrected(before, padId, file) && Inv(Model()) by {
        LoadAudioCorrectedPreservesInv(before, padId, file);
      }
      assert SameSlots(before.pads1, pads1) && SameSlots(before.pads2, pads2) by {
        LoadAudioKeepsSlots(before, padId, file);
      }
    }

    /** Starting bound pad `padId`, whose URL is `url`. */
    method Start(padId: int, url: Url)
      requires Links()
      modifies this`audioRefs, this`handles, this`playingAudio, audioRefs.Values
      ensures Links() && Model() == StartStep(old(Model()), padId, url)
      ensures padId !in old(audioRefs) ==> fresh(audioRefs[padId]) && audioRefs[padId].listeners == {}
      ensures forall id :: id in old(audioRefs) ==> id in audioRefs && audioRefs[id] == old(audioRefs[id])
      ensures forall h :: h in old(audioRefs.Values) ==> h.listeners == old(h.listeners)
    {
      var audio := AcquireHandle(padId, url);
      ghost var refs := audioRefs;
      if playingAudio.Some? && playingAudio.value.padId == padId {
        SetPaused(padId, audio, !audio.paused);
      } else {
        SetPaused(padId, audio, false);
        Claim(padId, audio);
      }
      assert audioRefs == refs;
    }

    /** Triggering bound pad `padId`, whose URL is `url`. */
    method Trigger(padId: int, url: Url)
      requires Links()
      modifies this`audioRefs, this`handles, this`playingAudio, audioRefs.Values
      ensures Links() && Model() == TriggerStep(old(Model()), padId, url)
      ensures padId !in old(audioRefs) ==> fresh(audioRefs[padId]) && audioRefs[padId].listeners == {}
      ensures forall id :: id in old(audioRefs) ==> id in audioRefs && audioRefs[id] == old(audioRefs[id])
      ensures forall h :: h in old(audioRefs.Values) ==> h.listeners == old(h.listeners)
    {
      if playingAudio.Some? && playingAudio.value.padId != padId {
        RewindHandle(playingAudio.value.padId);
      }
      Start(padId, url);
    }

    /** A click on pad `padId` of the panel on display. */
    method HandlePlayPause(padId: int)
      requires Valid()
      modifies this`audioRefs, this`handles, this`playingAudio, audioRefs.Values
      ensures Valid() && Model() == PlayPause(old(Model()), padId)
      ensures padId !in old(audioRefs) && padId in audioRefs ==>
        fresh(audioRefs[padId]) && audioRefs[padId].listeners == {}
      ensures forall id :: id in old(audioRefs) ==> id in audioRefs && audioRefs[id] == old(audioRefs[id])
      ensures forall h :: h in old(audioRefs.Values) ==> h.listeners == old(h.listeners)
    {
      ghost var before := Model();
      var current := if currentPanel == 1 then pads1 else pads2;
      var found := FindPad(current, padId);
      if found.None? {
        return;
      }
      var pad := current[found.value];
      if pad.audioUrl.None? {
        return;
      }
      Trigger(padId, pad.audioUrl.value);
      assert Inv(Model()) && pads1 == before.pads1 && pads2 == before.pads2 by {
        PlayPausePreservesInv(before, padId);
        PlayPauseKeepsPads(before, padId);
      }
    }

    /** Closing the player. */
    method HandleClosePlayer()
      requires Valid()
      modifies this`handles, this`playingAudio, audioRefs.Values
      ensures Valid() && Model() == ClosePlayer(old(Model()))
      ensures forall h :: h in old(audioRefs.Values) ==> h.listeners == old(h.listeners)
    {
      ghost var before := Model();
      if playingAudio.None? {
        return;
      }
      RewindHandle(playingAudio.value.padId);
      Release();
      assert Inv(Model()) by {
        ClosePlayerSilences(before);
      }
    }

    /** The highlight of pad `padId`: it is in the playing slot and its handle is not
        paused. */
    function IsPlaying(padId: int): (r: bool)
      requires Valid()
      reads this, audioRefs.Values
      ensures r == PadIsPlaying(Model(), padId)
    {
      playingAudio.Some? && playingAudio.value.padId == padId && !playingAudio.value.audio.paused
    }
  }
}
