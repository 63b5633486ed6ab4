/** The registered handlers and how they are looked up (handle.go:13-27, 104-110, 133-230). */
module Handlers {
  import opened Bytes

  /** The handlers of one kind: the names they are registered for, and whether there is one for all others. */
  datatype Table = Table(names: set<seq<byte>>, fallback: bool)

  /** Handlers for single requests, stream requests and notifications, and those that they extend. */
  datatype Handlers = Handlers(singles: Table, streams: Table, notes: Table, outer: Option<Handlers>)

  function TableFor(hs: Handlers, t: byte): Table {
    if t == SINGLE_REQ then hs.singles else if t == STREAM_REQ then hs.streams else hs.notes
  }

  /** FindBufferRequestHandler, FindStreamRequestHandler and FindNotificationHandler. */
  predicate Finds(hs: Handlers, t: byte, name: seq<byte>)
    decreases hs
  {
    || name in TableFor(hs, t).names
    || (if hs.outer.Some? then Finds(hs.outer.value, t, name) else TableFor(hs, t).fallback)
  }

  /** The handlers and all those that they extend, the outermost last. */
  function Levels(hs: Handlers): (ls: seq<Handlers>)
    ensures ls != []
    decreases hs
  {
    [hs] + if hs.outer.Some? then Levels(hs.outer.value) else []
  }

  /** The handlers of a level for messages with this letter. */
  function Registered(level: Handlers, letter: char): Table {
    match letter
    case 'r' => level.singles
    case 's' => level.streams
    case _ => level.notes
  }

  /** Some level has a handler for the name, or the outermost has one for all. */
  predicate Handles(hs: Handlers, letter: char, name: seq<byte>) {
    || (exists i :: 0 <= i < |Levels(hs)| && name in Registered(Levels(hs)[i], letter).names)
    || Registered(Levels(hs)[|Levels(hs)| - 1], letter).fallback
  }

  /**
   What is found: the handler for the name at some level, or the one for all names of the outermost
   level. One for all names that is registered at a level in between is never used.
   */
  lemma {:induction false} FindsExactly(hs: Handlers, t: byte, name: seq<byte>)
    requires t as char in "rsn"
    ensures Finds(hs, t, name) <==> Handles(hs, t as char, name)
    decreases hs
  {
    var ls := Levels(hs);
    assert ls[0] == hs;
    if hs.outer.Some? {
      var rest := Levels(hs.outer.value);
      FindsExactly(hs.outer.value, t, name);
      assert forall i :: 0 <= i < |rest| ==> ls[i + 1] == rest[i];
      if Handles(hs.outer.value, t as char, name) {
        assert ls[|ls| - 1] == rest[|rest| - 1];
      }
      if i :| 0 <= i < |ls| && name in Registered(ls[i], t as char).names && i > 0 {
        assert rest[i - 1] == ls[i];
      }
    }
  }
}
