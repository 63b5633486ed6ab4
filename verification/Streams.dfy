/**
 Streaming requests from the requestor's writes to the handler's reads (request.go:11-50,
 sock.go:207-236, 486-551): concurrent requests share one stream of frames, and the one read loop
 passes each handler its chunks through a channel of capacity one.
 */
module Streams {
  import opened Bytes

  /** The frames of a stream request: 's' with the first chunk, 'p' with each further one. */
  datatype Frame = Start(id: nat, chunk: seq<byte>) | Part(id: nat, chunk: seq<byte>)

  /** What a handler receives; Nil is Go's nil slice, the end of the stream. */
  datatype Item = Chunk(b: seq<byte>) | Nil

  /** The first chunk is never nil, even when it is empty; a further chunk of size zero always is. */
  function AsItem(f: Frame): Item {
    if f.Part? && f.chunk == [] then Nil else Chunk(f.chunk)
  }

  // ----- The requestor ------------------------------------------------------------------------

  class StreamRequest {
    const id: nat
    var started: bool
    var forgotten: bool       // finalize has cleared the id
    ghost var log: seq<Frame> // frames written successfully under the id
    ghost var strays: nat     // frames written successfully with an empty id, which belong to no request

    constructor (id: nat)
      ensures this.id == id && !started && !forgotten && log == [] && strays == 0
    {
      this.id, started, forgotten, log, strays := id, false, false, [], 0;
    }

    ghost method Written(frame: Frame)
      modifies `log, `strays
      ensures log == (if forgotten then old(log) else old(log) + [frame])
      ensures strays == old(strays) + if forgotten then 1 else 0
    {
      if forgotten {
        strays := strays + 1;
      } else {
        log := log + [frame];
      }
    }

    /** `ok` is the outcome of the write on the connection. */
    method Write(b: seq<byte>, ok: bool) returns (err: bool)
      modifies this
      ensures err == !ok && started && forgotten == (old(forgotten) || !ok)
      ensures log == old(log) +
                     if ok && !old(forgotten) then [if old(started) then Part(id, b) else Start(id, b)] else []
      ensures strays == old(strays) + if ok && old(forgotten) then 1 else 0
    {
      ghost var frame := if started then Part(id, b) else Start(id, b);
      if !started {
        started := true;
      }
      if !ok {
        Finalize();
        return true;
      }
      Written(frame);
      return false;
    }

    method End(ok: bool) returns (err: bool)
      modifies this
      ensures err == !ok && started == old(started) && forgotten == (old(forgotten) || !ok)
      ensures log == old(log) + if ok && !old(forgotten) then [Part(id, [])] else []
      ensures strays == old(strays) + if ok && old(forgotten) then 1 else 0
    {
      if ok {
        Written(Part(id, []));
      } else {
        Finalize();
      }
      return !ok;
    }

    method Finalize()
      modifies `forgotten
      ensures forgotten
    {
      if !forgotten {
        forgotten := true;
      }
    }
  }

  /** The frames of a request that writes the given chunks and then ends. */
  function FramesOf(id: nat, chunks: seq<seq<byte>>): (fs: seq<Frame>)
    requires chunks != []
    ensures |fs| == |chunks| + 1
  {
    seq(|chunks| + 1, i requires 0 <= i <= |chunks| =>
      if i == 0 then Start(id, chunks[0]) else Part(id, if i < |chunks| then chunks[i] else []))
  }

  /** A request that writes all its chunks successfully and ends leaves exactly those frames. */
  method Send(r: StreamRequest, chunks: seq<seq<byte>>)
    requires !r.started && !r.forgotten && r.log == [] && chunks != []
    modifies r
    ensures r.log == FramesOf(r.id, chunks) && r.strays == old(r.strays)
  {
    var i := 0;
    while i < |chunks|
      invariant 0 <= i <= |chunks| && !r.forgotten && r.started == (i > 0)
      invariant r.log == FramesOf(r.id, chunks)[..i] && r.strays == old(r.strays)
    {
      var err := r.Write(chunks[i], true);
      i := i + 1;
    }
    var err := r.End(true);
  }

  // ----- The responder ------------------------------------------------------------------------

  /** A handler's channel; `listed` says whether pendingReq still knows it, `done` that the handler has returned. */
  datatype Chan = Chan(buf: Option<Item>, got: seq<Item>, listed: bool, done: bool)

  /** Feeding is the blocking send of readStreamReqPart. */
  datatype Loop = AtHead | Feeding(id: nat, item: Item) | Ended | Panicked

  datatype State = State(
    wire: seq<Frame>,     // everything written, by any number of requests
    pos: nat,             // frames read
    loop: Loop,
    chans: map<nat, Chan>,
    reused: bool,         // history: a request was started with an id used before
    admitted: set<nat>,   // history: streams whose handler was started
    failed: set<nat>)     // history: streams whose handler returned an error

  datatype Step =
    | Put(f: Frame)
    | Read(admit: bool)
    | Feed
    | Receive(id: nat)
    | HandlerReturns(id: nat)
    | HandlerFails(id: nat)

  function Initial(): State {
    State([], 0, AtHead, map[], false, {}, {})
  }

  predicate Enabled(s: State, step: Step) {
    match step
    case Put(_) => true
    case Read(_) => s.loop.AtHead? && s.pos < |s.wire|
    case Feed => s.loop.Feeding? && s.loop.id in s.chans && s.chans[s.loop.id].buf.None?
    case Receive(id) => id in s.chans && s.chans[id].buf.Some? && !s.chans[id].done
    case HandlerReturns(id) => id in s.chans && !s.chans[id].done
    case HandlerFails(id) => id in s.chans && !s.chans[id].done
  }

  function Items(fs: seq<Frame>, id: nat): seq<Item> {
    if fs == [] then []
    else Items(fs[..|fs| - 1], id) + if fs[|fs| - 1].id == id then [AsItem(fs[|fs| - 1])] else []
  }

  function ReadFrame(s: State, admit: bool): State
    requires s.pos < |s.wire|
  {
    match s.wire[s.pos]
    case Start(id, b) =>
      var s1 := s.(pos := s.pos + 1, reused := s.reused || Items(s.wire[..s.pos], id) != []);
      if !admit then s1
      else if id in s.chans && s.chans[id].listed then s1.(loop := Panicked)
      else s1.(admitted := s.admitted + {id}, chans := s.chans[id := Chan(Some(Chunk(b)), [], true, false)])
    case Part(id, b) =>
      if id in s.chans && s.chans[id].listed then s.(pos := s.pos + 1, loop := Feeding(id, AsItem(s.wire[s.pos])))
      else s.(loop := Ended)
  }

  function Apply(s: State, step: Step): State
    requires Enabled(s, step)
  {
    match step
    case Put(f) => s.(wire := s.wire + [f])
    case Read(admit) => ReadFrame(s, admit)
    case Feed => s.(loop := AtHead, chans := s.chans[s.loop.id := s.chans[s.loop.id].(buf := Some(s.loop.item))])
    case Receive(id) =>
      var c := s.chans[id];
      s.(chans := s.chans[id := c.(buf := None, got := c.got + [c.buf.value])])
    case HandlerReturns(id) => s.(chans := s.chans[id := s.chans[id].(done := true)])
    case HandlerFails(id) =>
      s.(failed := s.failed + {id}, chans := s.chans[id := s.chans[id].(done := true, listed := false)])
  }

  function Exec(s: State, steps: seq<Step>): Option<State>
    decreases |steps|
  {
    if steps == [] then Some(s)
    else if Enabled(s, steps[0]) then Exec(Apply(s, steps[0]), steps[1..])
    else None
  }

  // ----- The invariant ------------------------------------------------------------------------

  function Opt(x: Option<Item>): seq<Item> {
    if x.Some? then [x.value] else []
  }

  function Fed(s: State, id: nat): seq<Item> {
    if s.loop.Feeding? && s.loop.id == id then [s.loop.item] else []
  }

  /** What the handler got, what is in its channel and what the loop holds for it is what was read of its stream. */
  predicate InOrder(s: State, id: nat)
    requires id in s.chans && s.pos <= |s.wire|
  {
    && s.chans[id].got + Opt(s.chans[id].buf) + Fed(s, id) == Items(s.wire[..s.pos], id)
    && s.chans[id].got + Opt(s.chans[id].buf) != []
  }

  predicate Inv(s: State) {
    && s.pos <= |s.wire|
    && (s.loop.Feeding? ==> s.loop.id in s.chans)
    && (!s.reused ==> forall id :: id in s.chans ==> InOrder(s, id))
  }

  lemma ItemsSnoc(fs: seq<Frame>, f: Frame, id: nat)
    ensures Items(fs + [f], id) == Items(fs, id) + if f.id == id then [AsItem(f)] else []
  {
    assert (fs + [f])[..|fs|] == fs;
  }

  lemma OneMoreRead(s: State, id: nat)
    requires s.pos < |s.wire|
    ensures var f := s.wire[s.pos];
            Items(s.wire[..s.pos + 1], id) ==
            if f.id == id then Items(s.wire[..s.pos], id) + [AsItem(f)] else Items(s.wire[..s.pos], id)
  {
    ItemsSnoc(s.wire[..s.pos], s.wire[s.pos], id);
    assert s.wire[..s.pos + 1] == s.wire[..s.pos] + [s.wire[s.pos]];
  }

  /** A stream that starts: nothing of it has been read before, so no handler has its id. */
  lemma OwnStartInOrder(s: State, admit: bool)
    requires Inv(s) && Enabled(s, Read(admit)) && !Apply(s, Read(admit)).reused && s.wire[s.pos].Start?
    requires s.wire[s.pos].id in Apply(s, Read(admit)).chans
    ensures InOrder(Apply(s, Read(admit)), s.wire[s.pos].id)
  {
    var id, b := s.wire[s.pos].id, s.wire[s.pos].chunk;
    OneMoreRead(s, id);
    hide Items;
    assert id in s.chans ==> InOrder(s, id);
    assert [] + Opt(Some(Chunk(b))) + [] == [Chunk(b)];
  }

  lemma InOrderAsBefore(s: State, s': State, id: nat)
    requires id in s.chans && id in s'.chans && s.pos <= |s.wire| && s'.pos <= |s'.wire|
    requires s'.chans[id] == s.chans[id] && Fed(s', id) == Fed(s, id)
    requires Items(s'.wire[..s'.pos], id) == Items(s.wire[..s.pos], id)
    ensures InOrder(s', id) == InOrder(s, id)
  {
    hide Items, Fed, Opt;
  }

  lemma OtherStartInOrder(s: State, admit: bool, id: nat)
    requires Inv(s) && Enabled(s, Read(admit)) && !s.reused && s.wire[s.pos].Start?
    requires id in s.chans && id != s.wire[s.pos].id
    ensures InOrder(Apply(s, Read(admit)), id)
  {
    OneMoreRead(s, id);
    hide Items, InOrder;
    InOrderAsBefore(s, Apply(s, Read(admit)), id);
  }

  lemma PartInOrder(s: State, admit: bool, id: nat)
    requires Inv(s) && Enabled(s, Read(admit)) && !s.reused && s.wire[s.pos].Part? && id in s.chans
    ensures InOrder(Apply(s, Read(admit)), id)
  {
    OneMoreRead(s, id);
    hide Items;
    assert InOrder(s, id);
    var c := s.chans[id];
    assert c.got + Opt(c.buf) + [] == c.got + Opt(c.buf);
  }

  lemma ReadInOrder(s: State, admit: bool, id: nat)
    requires Inv(s) && Enabled(s, Read(admit)) && !Apply(s, Read(admit)).reused
    requires id in Apply(s, Read(admit)).chans
    ensures InOrder(Apply(s, Read(admit)), id)
  {
    hide Inv, InOrder;
    if s.wire[s.pos].Start? && s.wire[s.pos].id == id {
      OwnStartInOrder(s, admit);
    } else if s.wire[s.pos].Start? {
      OtherStartInOrder(s, admit, id);
    } else {
      PartInOrder(s, admit, id);
    }
  }

  lemma FeedInOrder(s: State, id: nat)
    requires Inv(s) && Enabled(s, Feed) && !s.reused && id in s.chans
    ensures InOrder(Apply(s, Feed), id)
  {
    hide Items;
    assert InOrder(s, id);
    var c := s.chans[id];
    assert c.got + [] + [s.loop.item] == c.got + [s.loop.item] + [];
  }

  lemma ReceiveInOrder(s: State, of: nat, id: nat)
    requires Inv(s) && Enabled(s, Receive(of)) && !s.reused && id in s.chans
    ensures InOrder(Apply(s, Receive(of)), id)
  {
    hide Items;
    assert InOrder(s, id);
    var c := s.chans[of];
    assert c.got + [c.buf.value] + [] == c.got + [c.buf.value];
  }

  lemma OtherInOrder(s: State, step: Step, id: nat)
    requires Inv(s) && Enabled(s, step) && !s.reused && id in s.chans
    requires step.Put? || step.HandlerReturns? || step.HandlerFails?
    ensures id in Apply(s, step).chans && InOrder(Apply(s, step), id)
  {
    hide Items;
    assert InOrder(s, id);
    assert Apply(s, step).wire[..s.pos] == s.wire[..s.pos];
  }

  lemma StepInv(s: State, step: Step)
    requires Inv(s) && Enabled(s, step)
    ensures Inv(Apply(s, step))
  {
    hide InOrder, Items;
    var s' := Apply(s, step);
    if !s'.reused {
      forall id | id in s'.chans
        ensures InOrder(s', id)
      {
        if step.Read? {
          ReadInOrder(s, step.admit, id);
        } else if step.Feed? {
          FeedInOrder(s, id);
        } else if step.Receive? {
          ReceiveInOrder(s, step.id, id);
        } else {
          OtherInOrder(s, step, id);
        }
      }
    }
  }

  lemma {:induction false} ExecInv(s: State, steps: seq<Step>)
    requires Inv(s) && Exec(s, steps).Some?
    ensures Inv(Exec(s, steps).value)
    decreases |steps|
  {
    hide Inv, Enabled, Apply;
    if steps != [] {
      StepInv(s, steps[0]);
      ExecInv(Apply(s, steps[0]), steps[1..]);
    }
  }

  lemma {:induction false} ItemsPrefix(fs: seq<Frame>, n: nat, id: nat)
    requires n <= |fs|
    ensures Items(fs[..n], id) <= Items(fs, id)
    decreases |fs|
  {
    if n < |fs| {
      ItemsPrefix(fs[..|fs| - 1], n, id);
      assert fs[..|fs| - 1][..n] == fs[..n];
    } else {
      assert fs[..n] == fs;
    }
  }

  /**
   In every interleaving of any number of stream requests with distinct ids, what a handler has
   received so far is the beginning of what was written for its own id: nothing is lost,
   duplicated, reordered or taken from another stream.
   */
  lemma Delivery(steps: seq<Step>, id: nat)
    requires Exec(Initial(), steps).Some?
    requires var s := Exec(Initial(), steps).value; !s.reused && id in s.chans
    ensures var s := Exec(Initial(), steps).value; s.chans[id].got <= Items(s.wire, id)
  {
    ExecInv(Initial(), steps);
    var s := Exec(Initial(), steps).value;
    assert InOrder(s, id);
    ItemsPrefix(s.wire, s.pos, id);
    var rest := Opt(s.chans[id].buf) + Fed(s, id);
    assert s.chans[id].got + Opt(s.chans[id].buf) + Fed(s, id) == s.chans[id].got + rest;
    hide Items;
  }

  // ----- From the first chunk to the end ------------------------------------------------------

  /** A handler that reads up to its first nil. */
  predicate ReadToEnd(got: seq<Item>) {
    got != [] && got[|got| - 1].Nil? && forall i :: 0 <= i < |got| - 1 ==> got[i].Chunk?
  }

  function Chunks(got: seq<Item>): seq<seq<byte>>
    requires ReadToEnd(got)
  {
    seq(|got| - 1, i requires 0 <= i < |got| - 1 => got[i].b)
  }

  predicate NoEmptyLater(chunks: seq<seq<byte>>) {
    forall i :: 1 <= i < |chunks| ==> chunks[i] != []
  }

  /** The items a request's frames turn into. */
  function ItemsOfRequest(chunks: seq<seq<byte>>): (r: seq<Item>)
    requires chunks != []
    ensures |r| == |chunks| + 1
  {
    seq(|chunks| + 1, i requires 0 <= i <= |chunks| =>
      if i == 0 || (i < |chunks| && chunks[i] != []) then Chunk(chunks[i]) else Nil)
  }

  lemma {:induction false} ItemsAreAsItems(fs: seq<Frame>, id: nat)
    requires forall i :: 0 <= i < |fs| ==> fs[i].id == id
    ensures |Items(fs, id)| == |fs| && forall i :: 0 <= i < |fs| ==> Items(fs, id)[i] == AsItem(fs[i])
  {
    if fs != [] {
      ItemsAreAsItems(fs[..|fs| - 1], id);
    }
  }

  lemma RequestItems(id: nat, chunks: seq<seq<byte>>)
    requires chunks != []
    ensures Items(FramesOf(id, chunks), id) == ItemsOfRequest(chunks)
  {
    ItemsAreAsItems(FramesOf(id, chunks), id);
    hide Items;
  }

  /**
   A handler that reads to the end of the stream of a request that wrote these chunks and ended
   receives exactly the chunks, then one nil, if and only if no chunk but the first was empty:
   an empty first chunk is delivered as such, a later one is taken for the end.
   */
  lemma ReadsWhatWasWritten(got: seq<Item>, id: nat, chunks: seq<seq<byte>>)
    requires chunks != [] && got <= Items(FramesOf(id, chunks), id) && ReadToEnd(got)
    ensures Chunks(got) == chunks <==> NoEmptyLater(chunks)
  {
    RequestItems(id, chunks);
    hide Items, FramesOf;
    var items := ItemsOfRequest(chunks);
    assert forall i :: 0 <= i < |got| ==> got[i] == items[i];
    var n := |got| - 1;
    assert forall i :: 0 <= i < n ==> Chunks(got)[i] == chunks[i];
    if NoEmptyLater(chunks) {
      assert items[n].Nil?;
      assert n == |chunks|;
    } else {
      var i :| 1 <= i < |chunks| && chunks[i] == [];
      assert items[i].Nil?;
      assert n <= i;
    }
  }

  /** The frames of one request among all those written. */
  function OfRequest(fs: seq<Frame>, id: nat): seq<Frame> {
    if fs == [] then []
    else OfRequest(fs[..|fs| - 1], id) + if fs[|fs| - 1].id == id then [fs[|fs| - 1]] else []
  }

  lemma {:induction false} ItemsOfOwnFrames(fs: seq<Frame>, id: nat)
    ensures Items(OfRequest(fs, id), id) == Items(fs, id)
  {
    if fs != [] {
      var n := |fs| - 1;
      ItemsOfOwnFrames(fs[..n], id);
      ItemsSnoc(OfRequest(fs[..n], id), fs[n], id);
      assert OfRequest(fs[..n], id) + [] == OfRequest(fs[..n], id);
    }
  }

  /**
   Delivery from end to end: among any number of concurrent stream requests, the handler of one
   whose frames were written in full, once it has read to the end, has received exactly its
   chunks if and only if none of them but the first was empty.
   */
  lemma StreamDelivered(steps: seq<Step>, id: nat, chunks: seq<seq<byte>>)
    requires chunks != [] && Exec(Initial(), steps).Some?
    requires var s := Exec(Initial(), steps).value;
             !s.reused && id in s.chans && OfRequest(s.wire, id) == FramesOf(id, chunks) && ReadToEnd(s.chans[id].got)
    ensures Chunks(Exec(Initial(), steps).value.chans[id].got) == chunks <==> NoEmptyLater(chunks)
  {
    hide Items, FramesOf, Exec, OfRequest;
    Delivery(steps, id);
    var s := Exec(Initial(), steps).value;
    ItemsOfOwnFrames(s.wire, id);
    ReadsWhatWasWritten(s.chans[id].got, id, chunks);
  }

  // ----- A handler that stops reading ---------------------------------------------------------

  /** The read loop waits to hand a chunk to a handler that has returned, with the channel full. */
  predicate Stalled(s: State) {
    && s.loop.Feeding? && s.loop.id in s.chans
    && s.chans[s.loop.id].buf.Some? && s.chans[s.loop.id].done
  }

  lemma StepStalled(s: State, step: Step)
    requires Stalled(s) && Enabled(s, step)
    ensures Stalled(Apply(s, step))
  {
  }

  /** Whatever happens afterwards, the read loop stays stalled. */
  lemma {:induction false} StalledForever(s: State, steps: seq<Step>)
    requires Stalled(s) && Exec(s, steps).Some?
    ensures Stalled(Exec(s, steps).value)
    decreases |steps|
  {
    hide Apply, Enabled, Stalled;
    if steps != [] {
      StepStalled(s, steps[0]);
      StalledForever(Apply(s, steps[0]), steps[1..]);
    }
  }

  /**
   When a run stalls: a handler that has returned stalls the read loop exactly if two more items of
   its stream have been read off the connection than it received, one for the channel and one in
   the hands of the loop.
   */
  lemma StalledExactly(steps: seq<Step>, id: nat)
    requires Exec(Initial(), steps).Some?
    requires var s := Exec(Initial(), steps).value; !s.reused && id in s.chans && s.chans[id].done
    ensures var s := Exec(Initial(), steps).value;
            && s.pos <= |s.wire|
            && (Stalled(s) && s.loop.id == id <==> |Items(s.wire[..s.pos], id)| == |s.chans[id].got| + 2)
  {
    ExecInv(Initial(), steps);
    assert InOrder(Exec(Initial(), steps).value, id);
    hide Items;
  }

  // ----- A part that belongs to no stream -----------------------------------------------------

  /** Which streams the socket knows: those admitted whose handler has not failed. */
  predicate Knows(s: State, id: nat) {
    id in s.admitted && id !in s.failed
  }

  predicate ListedOk(s: State) {
    && s.admitted == s.chans.Keys && s.failed <= s.admitted
    && (!s.reused ==> forall id :: id in s.chans ==> (s.chans[id].listed <==> id !in s.failed))
    && (!s.reused && s.loop.Ended? ==>
         s.pos < |s.wire| && s.wire[s.pos].Part? && !Knows(s, s.wire[s.pos].id))
  }

  /** A stream that starts with an id not seen before is not among those admitted. */
  lemma FreshIsNew(s: State, id: nat)
    requires Inv(s) && !s.reused && s.pos < |s.wire| && Items(s.wire[..s.pos], id) == []
    ensures id !in s.chans
  {
    assert id in s.chans ==> InOrder(s, id);
    hide Items;
  }

  lemma ReadListed(s: State, admit: bool)
    requires Inv(s) && ListedOk(s) && Enabled(s, Read(admit))
    ensures ListedOk(Apply(s, Read(admit)))
  {
    var id := s.wire[s.pos].id;
    if !s.reused && Items(s.wire[..s.pos], id) == [] {
      FreshIsNew(s, id);
    }
    hide Items, Inv;
  }

  lemma FailListed(s: State, id: nat)
    requires Inv(s) && ListedOk(s) && Enabled(s, HandlerFails(id))
    ensures ListedOk(Apply(s, HandlerFails(id)))
  {
    hide Inv;
  }

  lemma OtherListed(s: State, step: Step)
    requires Inv(s) && ListedOk(s) && Enabled(s, step) && !step.Read? && !step.HandlerFails?
    ensures ListedOk(Apply(s, step))
  {
    hide InOrder;
  }

  lemma StepListed(s: State, step: Step)
    requires Inv(s) && ListedOk(s) && Enabled(s, step)
    ensures ListedOk(Apply(s, step))
  {
    if step.Read? {
      ReadListed(s, step.admit);
    } else if step.HandlerFails? {
      FailListed(s, step.id);
    } else {
      OtherListed(s, step);
    }
    hide Inv, ListedOk, Apply, Enabled;
  }

  lemma {:induction false} ExecListed(s: State, steps: seq<Step>)
    requires Inv(s) && ListedOk(s) && Exec(s, steps).Some?
    ensures ListedOk(Exec(s, steps).value)
    decreases |steps|
  {
    hide Inv, ListedOk, Enabled, Apply;
    if steps != [] {
      StepInv(s, steps[0]);
      StepListed(s, steps[0]);
      ExecListed(Apply(s, steps[0]), steps[1..]);
    }
  }

  /**
   The read loop, and with it the socket, ends on a part exactly if its stream was refused or never
   started, or its handler has failed: a requestor that goes on writing to such a stream closes
   the connection for everyone. Nothing else that a stream request sends ends the loop.
   */
  lemma StrayPartEndsLoop(steps: seq<Step>, admit: bool)
    requires Exec(Initial(), steps).Some? && !Exec(Initial(), steps).value.reused
    ensures var s := Exec(Initial(), steps).value;
            && (Enabled(s, Read(admit)) ==>
                 (Apply(s, Read(admit)).loop.Ended? <==> s.wire[s.pos].Part? && !Knows(s, s.wire[s.pos].id)))
            && (s.loop.Ended? ==> s.pos < |s.wire| && s.wire[s.pos].Part? && !Knows(s, s.wire[s.pos].id))
  {
    ExecInv(Initial(), steps);
    ExecListed(Initial(), steps);
    hide Items, Inv;
  }

  // ----- The histories, told by the steps of a run --------------------------------------------

  lemma {:induction false} ExecSplits(s: State, steps: seq<Step>)
    requires steps != [] && Exec(s, steps).Some?
    ensures var init, last := steps[..|steps| - 1], steps[|steps| - 1];
            && Exec(s, init).Some? && Enabled(Exec(s, init).value, last)
            && Exec(s, steps) == Some(Apply(Exec(s, init).value, last))
    decreases |steps|
  {
    hide Enabled, Apply;
    var init, last := steps[..|steps| - 1], steps[|steps| - 1];
    if |steps| == 1 {
      assert init == [] && steps[1..] == [];
      assert Exec(Apply(s, last), []) == Some(Apply(s, last));
    } else {
      assert init[1..] == steps[1..][..|steps| - 2];
      ExecSplits(Apply(s, steps[0]), steps[1..]);
    }
  }

  /** The ids of the streams whose start was read and admitted. */
  function Started(steps: seq<Step>): set<nat>
    requires Exec(Initial(), steps).Some?
    decreases |steps|
  {
    if steps == [] then {}
    else
      ExecSplits(Initial(), steps);
      var init := steps[..|steps| - 1];
      var s := Exec(Initial(), init).value;
      Started(init) + if steps[|steps| - 1] == Read(true) && s.wire[s.pos].Start? then {s.wire[s.pos].id} else {}
  }

  function FailedIn(steps: seq<Step>): set<nat> {
    set step | step in steps && step.HandlerFails? :: step.id
  }

  /** The frames written, in order. */
  function WrittenIn(steps: seq<Step>): seq<Frame> {
    if steps == [] then []
    else
      match steps[|steps| - 1]
      case Put(f) => WrittenIn(steps[..|steps| - 1]) + [f]
      case _ => WrittenIn(steps[..|steps| - 1])
  }

  /** Some frame read started a stream under an id that a frame before it had. */
  predicate IsReused(s: State) {
    exists i, j :: 0 <= i < j < s.pos && j < |s.wire| && s.wire[j].Start? && s.wire[i].id == s.wire[j].id
  }

  lemma {:induction false} ItemsOf(fs: seq<Frame>, id: nat)
    ensures Items(fs, id) == [] <==> forall i :: 0 <= i < |fs| ==> fs[i].id != id
  {
    if fs != [] {
      ItemsOf(fs[..|fs| - 1], id);
    }
  }

  lemma StepReused(s: State, step: Step)
    requires s.pos <= |s.wire| && Enabled(s, step) && (s.reused <==> IsReused(s))
    ensures Apply(s, step).reused <==> IsReused(Apply(s, step))
  {
    if step.Read? {
      ItemsOf(s.wire[..s.pos], s.wire[s.pos].id);
    }
    hide Items;
    var s' := Apply(s, step);
    assert forall i :: 0 <= i < |s.wire| ==> s'.wire[i] == s.wire[i];
  }

  lemma StepKnown(s: State, step: Step)
    requires Enabled(s, step) && s.admitted == s.chans.Keys
    ensures var s' := Apply(s, step);
            && s'.wire == s.wire + (if step.Put? then [step.f] else [])
            && s'.failed == s.failed + (if step.HandlerFails? then {step.id} else {})
            && s'.admitted == s.admitted + if step == Read(true) && s.wire[s.pos].Start? then {s.wire[s.pos].id} else {}
  {
    hide Items;
  }

  /**
   What the theorems above speak of is what happened: the wire has what was written, the streams
   admitted are those whose start was read with leave, those failed are those whose handler returned
   an error, and an id counts as reused exactly if a stream was started under it again.
   */
  lemma {:induction false} HistoryIsOfRun(steps: seq<Step>)
    requires Exec(Initial(), steps).Some?
    ensures var s := Exec(Initial(), steps).value;
            && s.wire == WrittenIn(steps) && s.admitted == Started(steps) && s.failed == FailedIn(steps)
            && (s.reused <==> IsReused(s))
    decreases |steps|
  {
    if steps != [] {
      hide Apply, Enabled, Exec, Inv, ListedOk, IsReused, Items;
      ExecSplits(Initial(), steps);
      var init, last := steps[..|steps| - 1], steps[|steps| - 1];
      var s := Exec(Initial(), init).value;
      HistoryIsOfRun(init);
      StartsListed();
      ExecInv(Initial(), init);
      ExecListed(Initial(), init);
      ListedKeys(s);
      StepKnown(s, last);
      StepReused(s, last);
      assert FailedIn(steps) == FailedIn(init) + if last.HandlerFails? then {last.id} else {} by {
        assert steps == init + [last];
      }
    }
  }

  lemma StartsListed()
    ensures Inv(Initial()) && ListedOk(Initial())
  {
  }

  lemma ListedKeys(s: State)
    requires Inv(s) && ListedOk(s)
    ensures s.admitted == s.chans.Keys && s.pos <= |s.wire|
  {
  }

  // ----- A handler that returns early ---------------------------------------------------------

  /** A handler that returns without error before its stream ends stays listed; a further part stalls the socket. */
  lemma EarlyReturnStalls(id: nat, a: seq<byte>, b: seq<byte>)
    ensures var s := Exec(Initial(), [Put(Start(id, a)), Put(Part(id, b)), Read(true), HandlerReturns(id), Read(true)]);
            s.Some? && !s.value.reused && Stalled(s.value)
  {
    var p, q, r, h := Put(Start(id, a)), Put(Part(id, b)), Read(true), HandlerReturns(id);
    var s1 := Apply(Initial(), p);
    var s2 := Apply(s1, q);
    assert s2.wire == [Start(id, a), Part(id, b)] && s2.wire[..0] == [];
    var s3 := Apply(s2, r);
    var s4 := Apply(s3, h);
    var s5 := Apply(s4, r);
    assert [p, q, r, h, r][1..] == [q, r, h, r];
    assert [q, r, h, r][1..] == [r, h, r];
    assert [r, h, r][1..] == [h, r];
    assert [h, r][1..] == [r];
    assert Exec(s4, [r]) == Some(s5);
    assert Exec(s3, [h, r]) == Some(s5);
    assert Exec(s2, [r, h, r]) == Some(s5);
    assert Exec(s1, [q, r, h, r]) == Some(s5);
  }
}
