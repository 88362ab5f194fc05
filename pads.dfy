/** The pad registry's data: the two panels of twelve pads, the lookup by id, the
    rebinding of one pad to a new file and the rebuilding of bindings from stored records. */
module Pads {
  import opened Media

  /** A display colour; presentation only, so opaque. */
  type Color = string

  /** A binary payload; only its identity matters. */
  type Blob = nat

  /** A user-supplied file: its name, its MIME type and its bytes. */
  datatype File = File(name: string, mime: string, blob: Blob)

  /** One pad slot. A slot is unbound when file, file name and URL are all absent. */
  datatype PadData = PadData(
    id: int,
    file: Option<File>,
    fileName: Option<string>,
    audioUrl: Option<Url>,
    color: Color)

  /** A record as the sample store returns it; the payload may be missing. */
  datatype StoredRecord = StoredRecord(id: int, blob: Option<Blob>, fileName: Option<string>)

  const PanelSize: nat := 12
  const Panel1Start: int := 0
  const Panel2Start: int := 12

  predicate Unbound(p: PadData) {
    p.file.None? && p.fileName.None? && p.audioUrl.None?
  }

  /** A panel that starts at `start`: twelve pads whose ids run from `start` upwards. */
  predicate PanelShape(pads: seq<PadData>, start: int) {
    |pads| == PanelSize && forall k :: 0 <= k < |pads| ==> pads[k].id == start + k
  }

  /** Two panels hold the same slots: same length, same ids, same colours, position by position. */
  predicate SameSlots(p: seq<PadData>, q: seq<PadData>) {
    |p| == |q| && forall k :: 0 <= k < |p| ==> p[k].id == q[k].id && p[k].color == q[k].color
  }

  /** The initial panel: twelve unbound pads numbered from `start`, coloured from `colors`. */
  function DefaultPads(start: int, colors: seq<Color>): (r: seq<PadData>)
    requires |colors| >= PanelSize
    ensures PanelShape(r, start)
    ensures forall k :: 0 <= k < |r| ==> Unbound(r[k]) && r[k].color == colors[k]
  {
    seq(PanelSize, k requires 0 <= k < PanelSize => PadData(start + k, None, None, None, colors[k]))
  }

  /** Index of the first pad carrying `id`, if any. */
  function FindPad(pads: seq<PadData>, id: int): (r: Option<nat>)
    ensures r.Some? ==> r.value < |pads| && pads[r.value].id == id
    ensures r.Some? ==> forall j :: 0 <= j < r.value ==> pads[j].id != id
    ensures r.None? <==> forall j :: 0 <= j < |pads| ==> pads[j].id != id
  {
    if |pads| == 0 then None
    else if pads[0].id == id then Some(0)
    else match FindPad(pads[1..], id)
      case None => None
      case Some(k) => Some(k + 1)
  }

  /** In a well-shaped panel, a pad id is found exactly when it lies in the panel's range,
      and then at its offset from the panel's first id. */
  lemma FindInPanel(pads: seq<PadData>, start: int, id: int)
    requires PanelShape(pads, start)
    ensures FindPad(pads, id) == if start <= id < start + PanelSize then Some(id - start) else None
  {
    if start <= id < start + PanelSize {
      assert pads[id - start].id == id;
    }
  }

  /** The pad bound to `file` under object URL `url`; id and colour are kept. */
  function Bind(p: PadData, file: File, url: Url): PadData {
    p.(file := Some(file), fileName := Some(file.name), audioUrl := Some(url))
  }

  /** Every pad carrying `id` bound to `file`, every other pad as it was. */
  function Rebind(pads: seq<PadData>, id: int, file: File, url: Url): (r: seq<PadData>)
    ensures SameSlots(pads, r)
    ensures forall k :: 0 <= k < |r| && pads[k].id != id ==> r[k] == pads[k]
    ensures forall k :: 0 <= k < |r| && pads[k].id == id ==>
      r[k].file == Some(file) && r[k].fileName == Some(file.name) && r[k].audioUrl == Some(url)
  {
    seq(|pads|, k requires 0 <= k < |pads| => if pads[k].id == id then Bind(pads[k], file, url) else pads[k])
  }

  /** In a well-shaped panel, rebinding a pad of the panel changes that one pad and no other. */
  lemma RebindOnlyThatPad(pads: seq<PadData>, start: int, id: int, file: File, url: Url)
    requires PanelShape(pads, start)
    requires start <= id < start + PanelSize
    ensures Rebind(pads, id, file, url) == pads[id - start := Bind(pads[id - start], file, url)]
    ensures SameSlots(pads, Rebind(pads, id, file, url))
  {
    var r := Rebind(pads, id, file, url);
    var s := pads[id - start := Bind(pads[id - start], file, url)];
    assert |r| == |s|;
    forall k | 0 <= k < |r|
      ensures r[k] == s[k]
    {
      assert pads[k].id == start + k;
    }
  }

  /** A stored record is taken by the panel starting at `start` when its id lies in the
      panel's range and it carries a payload. */
  predicate Admits(rec: StoredRecord, start: int) {
    start <= rec.id < start + PanelSize && rec.blob.Some?
  }

  /** The pad rebuilt from a stored record under a fresh URL. A file object is made only
      when the record has a non-empty name; the name is copied as stored. */
  function Restore(p: PadData, rec: StoredRecord, url: Url): (r: PadData)
    requires rec.blob.Some?
    ensures r.id == p.id && r.color == p.color
    ensures r.audioUrl == Some(url) && r.fileName == rec.fileName
    ensures r.file.Some? <==> rec.fileName.Some? && rec.fileName.value != ""
    ensures r.file.Some? ==> r.file.value.name == rec.fileName.value && r.file.value.blob == rec.blob.value
  {
    var file := if rec.fileName.Some? && rec.fileName.value != ""
                then Some(File(rec.fileName.value, "", rec.blob.value)) else None;
    p.(file := file, fileName := rec.fileName, audioUrl := Some(url))
  }

  /** How many of the records the panel starting at `start` takes (one URL is made for each). */
  function CountAdmitted(stored: seq<StoredRecord>, start: int): nat {
    if |stored| == 0 then 0
    else CountAdmitted(stored[..|stored| - 1], start) + (if Admits(stored[|stored| - 1], start) then 1 else 0)
  }

  /** The panel after the records have been applied in order, URLs handed out from `url0`
      upwards, one per admitted record. */
  function Hydrated(prev: seq<PadData>, stored: seq<StoredRecord>, start: int, url0: Url): (r: seq<PadData>)
    requires |prev| == PanelSize
    ensures |r| == PanelSize
  {
    if |stored| == 0 then prev
    else
      var init := stored[..|stored| - 1];
      var rec := stored[|stored| - 1];
      var next := Hydrated(prev, init, start, url0);
      if Admits(rec, start) then
        next[rec.id - start := Restore(next[rec.id - start], rec, url0 + CountAdmitted(init, start))]
      else next
  }

  /** One hydration pass: copy the panel, walk the records and rebind every pad a record
      names, making a fresh object URL for each. Returns the new panel and the next
      unused URL. */
  method HydratePanel(prev: seq<PadData>, stored: seq<StoredRecord>, start: int, url0: Url)
    returns (next: seq<PadData>, url1: Url)
    requires |prev| == PanelSize
    ensures next == Hydrated(prev, stored, start, url0)
    ensures url1 == url0 + CountAdmitted(stored, start)
  {
    var copy := new PadData[|prev|](k requires 0 <= k < |prev| => prev[k]);
    url1 := url0;
    for i := 0 to |stored|
      invariant copy[..] == Hydrated(prev, stored[..i], start, url0)
      invariant url1 == url0 + CountAdmitted(stored[..i], start)
    {
      assert stored[..i + 1][..i] == stored[..i];
      var rec := stored[i];
      if start <= rec.id && rec.id < start + PanelSize && rec.blob.Some? {
        var idx := rec.id - start;
        var url := url1;
        url1 := url1 + 1;
        copy[idx] := Restore(copy[idx], rec, url);
      }
    }
    assert stored[..|stored|] == stored;
    next := copy[..];
  }

  /** Hydration never changes which pad sits where or its colour. */
  lemma {:induction false} HydrateKeepsSlots(prev: seq<PadData>, stored: seq<StoredRecord>, start: int, url0: Url)
    requires |prev| == PanelSize
    ensures SameSlots(prev, Hydrated(prev, stored, start, url0))
  {
    if |stored| > 0 {
      HydrateKeepsSlots(prev, stored[..|stored| - 1], start, url0);
    }
  }

  /** A pad that no admitted record names keeps its old binding. */
  lemma {:induction false} HydrateUntouched(prev: seq<PadData>, stored: seq<StoredRecord>, start: int, url0: Url, k: nat)
    requires |prev| == PanelSize && k < PanelSize
    requires forall j :: 0 <= j < |stored| && Admits(stored[j], start) ==> stored[j].id != start + k
    ensures Hydrated(prev, stored, start, url0)[k] == prev[k]
  {
    if |stored| > 0 {
      var init := stored[..|stored| - 1];
      assert forall j :: 0 <= j < |init| ==> init[j] == stored[j];
      HydrateUntouched(prev, init, start, url0, k);
    }
  }

  /** A pad named by admitted records ends up bound to the last of them, under the URL made
      for that record. */
  lemma {:induction false} HydrateLastWins(prev: seq<PadData>, stored: seq<StoredRecord>, start: int, url0: Url, j: nat)
    requires |prev| == PanelSize && j < |stored| && Admits(stored[j], start)
    requires forall i :: j < i < |stored| && Admits(stored[i], start) ==> stored[i].id != stored[j].id
    ensures Hydrated(prev, stored, start, url0)[stored[j].id - start]
         == Restore(prev[stored[j].id - start], stored[j], url0 + CountAdmitted(stored[..j], start))
  {
    var init := stored[..|stored| - 1];
    if j == |stored| - 1 {
      HydrateKeepsSlots(prev, init, start, url0);
      assert init == stored[..j];
    } else {
      assert init[..j] == stored[..j];
      assert forall i :: 0 <= i < |init| ==> init[i] == stored[i];
      HydrateLastWins(prev, init, start, url0, j);
    }
  }

  /** Every URL hydration puts on a pad is either the pad's old one or one of the URLs made
      during the pass. */
  lemma {:induction false} HydrateUrls(prev: seq<PadData>, stored: seq<StoredRecord>, start: int, url0: Url, k: nat)
    requires |prev| == PanelSize && k < PanelSize
    ensures var r := Hydrated(prev, stored, start, url0);
      r[k].audioUrl == prev[k].audioUrl
      || (r[k].audioUrl.Some? && url0 <= r[k].audioUrl.value < url0 + CountAdmitted(stored, start))
  {
    if |stored| > 0 {
      HydrateUrls(prev, stored[..|stored| - 1], start, url0, k);
    }
  }
}
